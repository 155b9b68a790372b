/**
 * `IcalVCalendar`: a parsed calendar document owned through a shared
 * component tree, with its file path and an optional instance timestamp,
 * and `IcalVEvent`, a view of one event of that document.
 *
 * The owned tree is a `ComponentOwner` object: operations that edit the
 * document in place (`with_uid`, `with_keep_uid`, `remove_property_all`)
 * change its `tree` field, and every `Calendar` value that shares the
 * owner sees the change, as every `IcalVCalendar` sharing the `Rc` does.
 */
module IcalWrap {
  import opened Wrappers
  import opened Strings
  import opened Paths
  import opened Times
  import opened Component

  /** `IcalComponentOwner`: the single owner of a libical component tree. */
  class ComponentOwner {
    var tree: IcalComponent

    constructor (tree: IcalComponent)
      ensures this.tree == tree
    {
      this.tree := tree;
    }

    /**
     * `remove_property_all`: remove every property of `kind` from the owned
     * tree, at every depth, and report how many went.
     */
    method RemovePropertyAll(kind: PropKind) returns (count: nat)
      modifies this
      ensures tree == Strip(old(tree), kind)
      ensures count == CountKind(old(tree), kind)
      ensures CountKind(tree, kind) == 0
    {
      var stripped;
      stripped, count := RemovePropertyInner(tree, kind);
      StripLeavesNone(tree, kind);
      tree := stripped;
    }
  }

  datatype Calendar = Calendar(comp: ComponentOwner, path: Option<Path>, instanceTimestamp: Option<Timestamp>)

  /**
   * `IcalVEvent`: the event component (as it is when the view is taken),
   * the calendar it belongs to, and the occurrence it stands for.
   */
  datatype IcalVEvent = IcalVEvent(comp: IcalComponent, parent: Option<Calendar>, instanceTimestamp: Option<Timestamp>)

  // ---------------------------------------------------------------------
  // Validation after parsing

  function ErrorText(p: Property): string
  {
    if p.value.Text? then p.value.text else ""
  }

  /** The X-LIC-ERROR texts of `c`'s own properties, in order. */
  function ErrorTexts(c: IcalComponent): (r: seq<string>)
    ensures |r| == |Matching(c.props, XLicError)|
  {
    var errs := Matching(c.props, XLicError);
    seq(|errs|, i requires 0 <= i < |errs| => ErrorText(errs[i]))
  }

  /** `get_errors`: collect the text of each X-LIC-ERROR property of `c`. */
  method GetErrors(c: IcalComponent) returns (output: seq<string>)
    ensures output == ErrorTexts(c)
  {
    output := [];
    var i := 0;
    while i < |c.props|
      invariant 0 <= i <= |c.props|
      invariant output == ErrorTexts(IcalComponent(c.kind, c.props[..i], []))
    {
      KeepAppend(c.props[..i], c.props[i], XLicError, true);
      assert c.props[..i + 1] == c.props[..i] + [c.props[i]];
      if c.props[i].kind == XLicError {
        output := output + [ErrorText(c.props[i])];
      }
      i := i + 1;
    }
    assert c.props[..i] == c.props;
  }

  /** The error texts of the first `k` direct sub-components of `c`, one after the other. */
  function ChildErrorTexts(c: IcalComponent, k: nat): seq<string>
    requires k <= |c.subs|
  {
    if k == 0 then [] else ChildErrorTexts(c, k - 1) + ErrorTexts(c.subs[k - 1])
  }

  /** The messages `check_icalcomponent` reports: the root's, then each direct child's. */
  function CheckMessages(c: IcalComponent): seq<string>
  {
    ErrorTexts(c) + ChildErrorTexts(c, |c.subs|)
  }

  /** What `check_icalcomponent` decides for a parsed, restriction-checked tree. */
  function CheckOutcome(c: IcalComponent): Result<()>
  {
    if CountKind(c, XLicError) > 0 then Err("calendar contains errors: " + Join(CheckMessages(c), " "))
    else CheckUid(c)
  }

  /** `check_uid`: the (inner) component must have a UID. */
  function CheckUid(c: IcalComponent): (r: Result<()>)
    ensures r.Ok? <==> GetUid(c).Some?
    ensures r.Err? ==> r.error == "missing required property: UID"
  {
    if GetUid(c).None? then Err("missing required property: UID") else Ok(())
  }

  /**
   * `check_icalcomponent`: with any X-LIC-ERROR in the tree, report the
   * root's error texts and then each direct child's; otherwise check the UID.
   */
  method CheckIcalComponent(c: IcalComponent) returns (r: Result<()>)
    ensures r == CheckOutcome(c)
  {
    if CountKind(c, XLicError) > 0 {
      var own := GetErrors(c);
      var children := GetChildErrors(c);
      r := Err("calendar contains errors: " + Join(own + children, " "));
    } else {
      r := CheckUid(c);
    }
  }

  /** The loop of `check_icalcomponent` over the direct sub-components, appending each one's error texts. */
  method GetChildErrors(c: IcalComponent) returns (output: seq<string>)
    ensures output == ChildErrorTexts(c, |c.subs|)
  {
    output := [];
    var k := 0;
    while k < |c.subs|
      invariant 0 <= k <= |c.subs|
      invariant output == ChildErrorTexts(c, k)
    {
      var more := GetErrors(c.subs[k]);
      output := output + more;
      k := k + 1;
    }
  }

  /**
   * What `from_str` returns for the parser's result (None when the text
   * does not parse): parse failure, then validation, then the root kind.
   */
  function ParseOutcome(parsed: Option<IcalComponent>): Result<IcalComponent>
  {
    match parsed
    case None => Err("could not read component")
    case Some(c) =>
      match CheckOutcome(c)
      case Err(e) => Err(e)
      case Ok(_) =>
        if c.kind != VCalendar then Err("expected VCALENDAR component, got " + KindName(c.kind))
        else Ok(c)
  }

  /** The checks come in this order, and a tree passes only if it passes all three. */
  lemma ParseOrder(parsed: Option<IcalComponent>)
    ensures parsed.None? ==> ParseOutcome(parsed) == Err("could not read component")
    ensures parsed.Some? && CountKind(parsed.value, XLicError) > 0 ==>
              ParseOutcome(parsed) == Err("calendar contains errors: " + Join(CheckMessages(parsed.value), " "))
    ensures parsed.Some? && CountKind(parsed.value, XLicError) == 0 && GetUid(parsed.value).None? ==>
              ParseOutcome(parsed) == Err("missing required property: UID")
    ensures ParseOutcome(parsed).Ok? <==>
              parsed.Some? && CountKind(parsed.value, XLicError) == 0 && GetUid(parsed.value).Some?
              && parsed.value.kind == VCalendar
    ensures ParseOutcome(parsed).Ok? ==> ParseOutcome(parsed).value == parsed.value
  {
  }

  /**
   * libical counts X-LIC-ERROR properties at every depth, but the message
   * lists only the root's and its direct children's: an error nested two
   * levels down rejects the calendar with an empty list.
   */
  lemma DeepErrorUnlisted(t: IcalTime)
    ensures var alarm := IcalComponent(VAlarm, [Property(XLicError, Text("bad alarm"))], []);
            var event := IcalComponent(VEvent, [Property(Uid, Text("u")), Property(DtStart, Time(t))], [alarm]);
            var cal := IcalComponent(VCalendar, [], [event]);
            ParseOutcome(Some(cal)) == Err("calendar contains errors: ")
  {
    var alarm := IcalComponent(VAlarm, [Property(XLicError, Text("bad alarm"))], []);
    var event := IcalComponent(VEvent, [Property(Uid, Text("u")), Property(DtStart, Time(t))], [alarm]);
    var cal := IcalComponent(VCalendar, [], [event]);
    assert Matching(alarm.props, XLicError) == alarm.props;
    assert CountKind(alarm, XLicError) == 1;
    assert CountKind(event, XLicError) >= 1;
    assert CountKind(cal, XLicError) >= 1;
    assert Matching(event.props[1..], XLicError) == [];
    assert ErrorTexts(event) == [];
    assert ErrorTexts(cal) == [];
    assert ChildErrorTexts(cal, 1) == ChildErrorTexts(cal, 0) + ErrorTexts(event);
  }

  /**
   * `IcalVCalendar::from_str`, given the parser's result: on success a new
   * owner holds the tree and the path is stored; on failure nothing is.
   */
  method FromStr(parsed: Option<IcalComponent>, path: Option<Path>) returns (r: Result<Calendar>)
    ensures r.Err? <==> ParseOutcome(parsed).Err?
    ensures r.Err? ==> r.error == ParseOutcome(parsed).error
    ensures r.Ok? ==> fresh(r.value.comp) && r.value.comp.tree == parsed.value
                      && r.value.path == path && r.value.instanceTimestamp.None?
  {
    if parsed.None? {
      return Err("could not read component");
    }
    var c := parsed.value;
    var checked := CheckIcalComponent(c);
    if checked.Err? {
      return Err(checked.error);
    }
    if c.kind != VCalendar {
      return Err("expected VCALENDAR component, got " + KindName(c.kind));
    }
    var owner := new ComponentOwner(c);
    r := Ok(Calendar(owner, path, None));
  }

  // ---------------------------------------------------------------------
  // Events and their UIDs

  predicate IsEventAt(tree: IcalComponent, j: int)
  {
    0 <= j < |tree.subs| && tree.subs[j].kind == VEvent
  }

  /** The UIDs of the calendar's events (the VEVENTs directly inside it). */
  function UidSet(tree: IcalComponent): set<string>
  {
    set j | 0 <= j < |tree.subs| && tree.subs[j].kind == VEvent && GetUid(tree.subs[j]).Some? :: GetUid(tree.subs[j]).value
  }

  /** Reading an event's UID through a null pointer is undefined: every event must have one. */
  ghost predicate AllEventsHaveUid(tree: IcalComponent)
  {
    forall j :: IsEventAt(tree, j) ==> GetUid(tree.subs[j]).Some?
  }

  /**
   * `check_uid` reads only the first event's UID, so a calendar whose second
   * event has none is accepted, and reading that event's UID is undefined.
   */
  lemma UidlessSecondEventAccepted()
    ensures var first := IcalComponent(VEvent, [Property(Uid, Text("u"))], []);
            var second := IcalComponent(VEvent, [], []);
            var cal := IcalComponent(VCalendar, [], [first, second]);
            ParseOutcome(Some(cal)) == Ok(cal) && !AllEventsHaveUid(cal)
  {
    var first := IcalComponent(VEvent, [Property(Uid, Text("u"))], []);
    var second := IcalComponent(VEvent, [], []);
    var cal := IcalComponent(VCalendar, [], [first, second]);
    assert Matching(first.props, XLicError) == [];
    assert CountKind(first, XLicError) == 0;
    assert CountKind(second, XLicError) == 0;
    assert CountInChildren(cal, XLicError, 1) == 0;
    assert CountInChildren(cal, XLicError, 2) == 0;
    assert CountKind(cal, XLicError) == 0;
    assert GetUid(cal) == Some("u");
    assert IsEventAt(cal, 1) && GetUid(cal.subs[1]).None?;
  }

  /**
   * `IcalEventIter::unique_uid_count`: gather every event's UID, sort,
   * drop adjacent duplicates and count what is left.
   */
  method UniqueUidCount(tree: IcalComponent) returns (n: nat)
    requires AllEventsHaveUid(tree)
    ensures n == |UidSet(tree)|
  {
    var uids: seq<string> := [];
    var i := 0;
    while i < |tree.subs|
      invariant 0 <= i <= |tree.subs|
      invariant forall u :: u in uids <==> exists j :: 0 <= j < i && IsEventAt(tree, j) && GetUid(tree.subs[j]) == Some(u)
    {
      if tree.subs[i].kind == VEvent {
        assert IsEventAt(tree, i);
        uids := uids + [GetUid(tree.subs[i]).value];
      }
      i := i + 1;
    }
    var sorted := Sort(uids);
    var unique := DedupInPlace(sorted);
    DedupKeepsElements(sorted);
    StrictlySortedCardinality(unique);
    UidsCollected(tree, uids, sorted, unique);
    n := |unique|;
  }

  /** Sorting and dropping duplicates keeps exactly the collected UIDs. */
  lemma UidsCollected(tree: IcalComponent, uids: seq<string>, sorted: seq<string>, unique: seq<string>)
    requires forall u :: u in uids <==> exists j :: 0 <= j < |tree.subs| && IsEventAt(tree, j) && GetUid(tree.subs[j]) == Some(u)
    requires multiset(sorted) == multiset(uids)
    requires forall x :: x in unique <==> x in sorted
    ensures (set x | x in unique) == UidSet(tree)
  {
    forall x
      ensures x in unique <==> x in UidSet(tree)
    {
      assert x in sorted <==> x in multiset(sorted);
      assert x in uids <==> x in multiset(uids);
      if x in UidSet(tree) {
        var j :| 0 <= j < |tree.subs| && tree.subs[j].kind == VEvent && GetUid(tree.subs[j]).Some? && GetUid(tree.subs[j]).value == x;
        assert IsEventAt(tree, j);
      }
    }
  }

  /** The tree after `with_uid` renames: every VEVENT gets `uid`, nothing else changes. */
  function Renamed(tree: IcalComponent, uid: string): (r: IcalComponent)
    ensures r.kind == tree.kind && r.props == tree.props && |r.subs| == |tree.subs|
  {
    tree.(subs := seq(|tree.subs|, j requires 0 <= j < |tree.subs| =>
                        if tree.subs[j].kind == VEvent then SetUid(tree.subs[j], uid) else tree.subs[j]))
  }

  /** After renaming, the events keep their positions, each has UID `uid`, and the other components are untouched. */
  lemma RenamedEvents(tree: IcalComponent, uid: string)
    ensures forall j :: IsEventAt(tree, j) <==> IsEventAt(Renamed(tree, uid), j)
    ensures forall j :: IsEventAt(tree, j) ==> GetUid(Renamed(tree, uid).subs[j]) == Some(uid)
    ensures forall j :: 0 <= j < |tree.subs| && !IsEventAt(tree, j) ==> Renamed(tree, uid).subs[j] == tree.subs[j]
    ensures AllEventsHaveUid(Renamed(tree, uid))
    ensures UidSet(Renamed(tree, uid)) == if exists j :: IsEventAt(tree, j) then {uid} else {}
  {
    var r := Renamed(tree, uid);
    forall j | 0 <= j < |tree.subs|
      ensures r.subs[j] == if tree.subs[j].kind == VEvent then SetUid(tree.subs[j], uid) else tree.subs[j]
    {
    }
    forall j | IsEventAt(tree, j)
      ensures IsEventAt(r, j) && GetUid(r.subs[j]) == Some(uid)
    {
    }
    forall u | u in UidSet(r)
      ensures u == uid
    {
      var j :| 0 <= j < |r.subs| && r.subs[j].kind == VEvent && GetUid(r.subs[j]).Some? && GetUid(r.subs[j]).value == u;
      assert IsEventAt(tree, j);
    }
    if exists j :: IsEventAt(tree, j) {
      var j :| IsEventAt(tree, j);
      assert uid in UidSet(r);
    } else {
      assert UidSet(r) == {};
    }
  }

  /** The path `with_uid` gives the document: the same directory, file name `<uid>.ics`. */
  function RenamedPath(path: Option<Path>, uid: string): Option<Path>
  {
    if path.Some? then Some(WithFileName(path.value, uid + ".ics")) else None
  }

  /**
   * `IcalVCalendar::with_uid`: refuse when the events carry more than one
   * distinct UID, naming the file; otherwise give every event the UID and
   * rename the file after it.
   */
  method WithUid(cal: Calendar, uid: string) returns (r: Result<Calendar>)
    requires AllEventsHaveUid(cal.comp.tree)
    requires |UidSet(cal.comp.tree)| > 1 ==> cal.path.Some?
    requires |UidSet(cal.comp.tree)| <= 1 ==> '\0' !in uid
    modifies cal.comp
    ensures |UidSet(old(cal.comp.tree))| > 1 ==>
              r == Err("More than one event in file: " + Display(cal.path.value)) && cal.comp.tree == old(cal.comp.tree)
    ensures |UidSet(old(cal.comp.tree))| <= 1 ==>
              r == Ok(Calendar(cal.comp, RenamedPath(cal.path, uid), cal.instanceTimestamp))
              && cal.comp.tree == Renamed(old(cal.comp.tree), uid)
  {
    var count := UniqueUidCount(cal.comp.tree);
    if count > 1 {
      return Err("More than one event in file: " + Display(cal.path.value));
    }
    ghost var orig := cal.comp.tree;
    var i := 0;
    while i < |cal.comp.tree.subs|
      invariant 0 <= i <= |cal.comp.tree.subs| == |orig.subs|
      invariant cal.comp.tree.kind == orig.kind && cal.comp.tree.props == orig.props
      invariant forall j :: 0 <= j < i ==> cal.comp.tree.subs[j] == Renamed(orig, uid).subs[j]
      invariant forall j :: i <= j < |orig.subs| ==> cal.comp.tree.subs[j] == orig.subs[j]
    {
      var event := cal.comp.tree.subs[i];
      if event.kind == VEvent {
        cal.comp.tree := cal.comp.tree.(subs := cal.comp.tree.subs[i := SetUid(event, uid)]);
      }
      i := i + 1;
    }
    assert cal.comp.tree.subs == Renamed(orig, uid).subs;
    r := Ok(Calendar(cal.comp, RenamedPath(cal.path, uid), cal.instanceTimestamp));
  }

  /** A document whose events already agree on one UID can be renamed again. */
  lemma RenamedIsRenamable(tree: IcalComponent, uid: string)
    ensures |UidSet(Renamed(tree, uid))| <= 1
  {
    RenamedEvents(tree, uid);
  }

  /** For a UID without '/', the renamed path keeps the directory and has file name `<uid>.ics`. */
  lemma RenamedPathFileName(p: Path, uid: string)
    requires '/' !in uid && FileName(p).Some?
    ensures Parent(WithFileName(p, uid + ".ics")) == Parent(p)
    ensures FileName(WithFileName(p, uid + ".ics")) == Some(uid + ".ics")
  {
    var name := uid + ".ics";
    assert '/' !in name by {
      assert forall i :: 0 <= i < |name| ==> name[i] == (if i < |uid| then uid[i] else ".ics"[i - |uid|]);
    }
    SplitSlashNone(name);
    assert name != "" && name != "." && name != ".." by {
      assert name[|name| - 1] == 's';
    }
    assert DropEmpty([name]) == [name];
    assert Paths.FromStr(name) == Path(false, [name]) by {
      assert name[0] != '/';
    }
    var q := WithFileName(p, name);
    assert q.parts[..|q.parts| - 1] == p.parts[..|p.parts| - 1];
  }

  // ---------------------------------------------------------------------
  // Keeping one UID

  predicate KeepsUid(c: IcalComponent, keep: string)
  {
    GetUid(c).None? || GetUid(c).value == keep
  }

  /** The sub-components `with_keep_uid` leaves: those with no UID or with UID `keep`, in order. */
  function KeepUid(subs: seq<IcalComponent>, keep: string): (r: seq<IcalComponent>)
    ensures |r| <= |subs|
    ensures forall c :: c in r <==> c in subs && KeepsUid(c, keep)
  {
    if subs == [] then []
    else
      assert subs == subs[..|subs| - 1] + [subs[|subs| - 1]];
      KeepUid(subs[..|subs| - 1], keep) + (if KeepsUid(subs[|subs| - 1], keep) then [subs[|subs| - 1]] else [])
  }

  /** One step of the cursor walk: the component under the cursor is `orig[j]`, and keeping or dropping it extends the kept prefix. */
  lemma KeepUidStep(orig: seq<IcalComponent>, j: int, keep: string)
    requires 0 <= j < |orig|
    ensures var kept := KeepUid(orig[..j], keep);
            var s := kept + orig[j..];
            |kept| < |s| && s[|kept|] == orig[j]
            && (KeepsUid(orig[j], keep) ==> s == KeepUid(orig[..j + 1], keep) + orig[j + 1..])
            && (!KeepsUid(orig[j], keep) ==> s[..|kept|] + s[|kept| + 1..] == KeepUid(orig[..j + 1], keep) + orig[j + 1..])
  {
    var kept := KeepUid(orig[..j], keep);
    var s := kept + orig[j..];
    assert orig[..j + 1][..j] == orig[..j];
    assert orig[j..] == [orig[j]] + orig[j + 1..];
    assert s[|kept|] == orig[j];
    assert KeepUid(orig[..j + 1], keep) == kept + (if KeepsUid(orig[j], keep) then [orig[j]] else []);
    if KeepsUid(orig[j], keep) {
      assert s == (kept + [orig[j]]) + orig[j + 1..];
    } else {
      assert s[..|kept|] == kept;
      assert s[|kept| + 1..] == orig[j + 1..];
    }
  }

  /**
   * `IcalVCalendar::with_keep_uid`: walk the sub-components with libical's
   * cursor, removing each one whose UID is present and differs from `keep`;
   * a removal leaves the cursor on the next component.
   */
  method WithKeepUid(cal: Calendar, keep: string) returns (r: Calendar)
    modifies cal.comp
    ensures r == cal
    ensures cal.comp.tree == old(cal.comp.tree).(subs := KeepUid(old(cal.comp.tree).subs, keep))
  {
    ghost var orig := cal.comp.tree.subs;
    ghost var j := 0;
    var cur := 0;
    while cur < |cal.comp.tree.subs|
      invariant 0 <= j <= |orig|
      invariant cal.comp.tree == old(cal.comp.tree).(subs := KeepUid(orig[..j], keep) + orig[j..])
      invariant cur == |KeepUid(orig[..j], keep)|
      decreases |orig| - j
    {
      KeepUidStep(orig, j, keep);
      var subs := cal.comp.tree.subs;
      var uid := GetUid(subs[cur]);
      if uid.Some? && uid.value != keep {
        cal.comp.tree := cal.comp.tree.(subs := subs[..cur] + subs[cur + 1..]);
      } else {
        cur := cur + 1;
      }
      j := j + 1;
    }
    assert orig[..j] == orig;
    r := cal;
  }

  /**
   * Once every event has a UID and one of them has `keep`, the kept
   * document's events all have UID `keep`.
   */
  lemma KeepUidLeavesOne(tree: IcalComponent, keep: string)
    requires AllEventsHaveUid(tree)
    requires keep in UidSet(tree)
    ensures UidSet(tree.(subs := KeepUid(tree.subs, keep))) == {keep}
  {
    var kept := tree.(subs := KeepUid(tree.subs, keep));
    var j :| 0 <= j < |tree.subs| && tree.subs[j].kind == VEvent && GetUid(tree.subs[j]).Some? && GetUid(tree.subs[j]).value == keep;
    assert tree.subs[j] in kept.subs;
    var k :| 0 <= k < |kept.subs| && kept.subs[k] == tree.subs[j];
    assert keep in UidSet(kept);
    forall u | u in UidSet(kept)
      ensures u == keep
    {
      var m :| 0 <= m < |kept.subs| && kept.subs[m].kind == VEvent && GetUid(kept.subs[m]).Some? && GetUid(kept.subs[m]).value == u;
      assert kept.subs[m] in kept.subs;
    }
  }

  // ---------------------------------------------------------------------
  // Copies

  /** `IcalVCalendar::clone`: a deep copy of the tree in a new owner, with the same path and timestamp. */
  method Clone(cal: Calendar) returns (copy: Calendar)
    ensures fresh(copy.comp)
    ensures copy.comp.tree == cal.comp.tree
    ensures copy.path == cal.path && copy.instanceTimestamp == cal.instanceTimestamp
  {
    var owner := new ComponentOwner(cal.comp.tree);
    copy := Calendar(owner, cal.path, cal.instanceTimestamp);
  }

  /** `shallow_copy`: the same owner, path and timestamp; edits through one are seen through the other. */
  function ShallowCopy(cal: Calendar): (r: Calendar)
    ensures r.comp == cal.comp && r == cal
  {
    Calendar(cal.comp, cal.path, cal.instanceTimestamp)
  }

  /** Renaming a clone leaves the original document as it was. */
  method RenameClone(cal: Calendar, uid: string) returns (r: Result<Calendar>)
    requires AllEventsHaveUid(cal.comp.tree)
    requires |UidSet(cal.comp.tree)| > 1 ==> cal.path.Some?
    requires |UidSet(cal.comp.tree)| <= 1 ==> '\0' !in uid
    ensures cal.comp.tree == old(cal.comp.tree)
    ensures r.Ok? <==> |UidSet(cal.comp.tree)| <= 1
    ensures r.Ok? ==> r.value.comp != cal.comp && r.value.comp.tree == Renamed(cal.comp.tree, uid)
  {
    var copy := Clone(cal);
    r := WithUid(copy, uid);
  }

  /** `IcalVCalendar::with_internal_timestamp`. */
  function WithInternalTimestamp(cal: Calendar, t: Timestamp): (r: Calendar)
    ensures r.comp == cal.comp && r.path == cal.path && r.instanceTimestamp == Some(t)
  {
    cal.(instanceTimestamp := Some(t))
  }

  // ---------------------------------------------------------------------
  // Paths and names

  /** `get_path_as_string`; it unwraps the path. */
  function GetPathAsString(cal: Calendar): string
    requires cal.path.Some?
  {
    Display(cal.path.value)
  }

  /** `get_calendar_name`: the file name of the directory holding the document. */
  function GetCalendarName(cal: Calendar): (r: Option<string>)
    ensures r.Some? <==> cal.path.Some? && |cal.path.value.parts| >= 2
                         && cal.path.value.parts[|cal.path.value.parts| - 2] != ".."
                         && cal.path.value.parts[|cal.path.value.parts| - 2] != "."
    ensures r.Some? ==> r.value == cal.path.value.parts[|cal.path.value.parts| - 2]
  {
    match cal.path
    case None => None
    case Some(p) =>
      match Parent(p)
      case None => None
      case Some(dir) => FileName(dir)
  }

  // ---------------------------------------------------------------------
  // The principal event

  /** `icalcomponent_get_first_component(cal, VEVENT)`: the first VEVENT, or the null component. */
  function FirstEvent(tree: IcalComponent): (r: IcalComponent)
    ensures (forall j :: !IsEventAt(tree, j)) ==> r == NullComponent
    ensures (exists j :: IsEventAt(tree, j)) ==>
              exists j :: IsEventAt(tree, j) && r == tree.subs[j] && forall k :: 0 <= k < j ==> !IsEventAt(tree, k)
  {
    FirstEventFrom(tree, 0)
  }

  function FirstEventFrom(tree: IcalComponent, i: nat): (r: IcalComponent)
    requires i <= |tree.subs|
    ensures (forall j :: i <= j < |tree.subs| ==> !IsEventAt(tree, j)) ==> r == NullComponent
    ensures (exists j :: i <= j < |tree.subs| && IsEventAt(tree, j)) ==>
              exists j :: i <= j < |tree.subs| && IsEventAt(tree, j) && r == tree.subs[j]
                          && forall k :: i <= k < j ==> !IsEventAt(tree, k)
    decreases |tree.subs| - i
  {
    if i == |tree.subs| then NullComponent
    else if tree.subs[i].kind == VEvent then assert IsEventAt(tree, i); tree.subs[i]
    else FirstEventFrom(tree, i + 1)
  }

  /** What `get_first_event` needs: UIDs to count, and a path to name in the warning. */
  ghost predicate PrincipalReady(cal: Calendar)
    reads cal.comp
  {
    AllEventsHaveUid(cal.comp.tree) && (|UidSet(cal.comp.tree)| > 1 ==> cal.path.Some?)
  }

  /** `get_first_event`: a view of the first VEVENT, belonging to this calendar; many UIDs only warn. */
  function GetFirstEvent(cal: Calendar): (r: IcalVEvent)
    requires PrincipalReady(cal)
    reads cal.comp
    ensures r.comp == FirstEvent(cal.comp.tree) && r.parent == Some(cal) && r.instanceTimestamp.None?
  {
    IcalVEvent(FirstEvent(cal.comp.tree), Some(ShallowCopy(cal)), None)
  }

  /** `IcalVEvent::with_internal_timestamp`: the same component and parent, standing for the occurrence `t`. */
  function EventWithTimestamp(e: IcalVEvent, t: Timestamp): (r: IcalVEvent)
    ensures r.comp == e.comp && r.parent == e.parent && r.instanceTimestamp == Some(t)
  {
    IcalVEvent(e.comp, if e.parent.Some? then Some(ShallowCopy(e.parent.value)) else None, Some(t))
  }

  /** `get_principal_event`: the first event, stamped with the calendar's instance timestamp if it has one. */
  function GetPrincipalEvent(cal: Calendar): (r: IcalVEvent)
    requires PrincipalReady(cal)
    reads cal.comp
    ensures r.comp == FirstEvent(cal.comp.tree) && r.parent == Some(cal)
    ensures r.instanceTimestamp == cal.instanceTimestamp
  {
    var event := GetFirstEvent(cal);
    if cal.instanceTimestamp.Some? then EventWithTimestamp(event, cal.instanceTimestamp.value) else event
  }

  /** `IcalVEvent::get_uid`; reading a missing UID is undefined. */
  function EventUid(e: IcalVEvent): string
    requires GetUid(e.comp).Some?
  {
    GetUid(e.comp).value
  }

  /** `IcalVCalendar::get_uid`: the principal event's UID. */
  function CalendarUid(cal: Calendar): string
    requires PrincipalReady(cal) && GetUid(FirstEvent(cal.comp.tree)).Some?
    reads cal.comp
  {
    EventUid(GetPrincipalEvent(cal))
  }

  /** After `with_keep_uid(u)` on a document holding an event with UID `u`, the calendar's UID is `u`. */
  lemma KeepUidCalendarUid(cal: Calendar, keep: string)
    requires AllEventsHaveUid(cal.comp.tree) && keep in UidSet(cal.comp.tree)
    ensures var kept := cal.comp.tree.(subs := KeepUid(cal.comp.tree.subs, keep));
            GetUid(FirstEvent(kept)) == Some(keep)
  {
    var kept := cal.comp.tree.(subs := KeepUid(cal.comp.tree.subs, keep));
    KeepUidLeavesOne(cal.comp.tree, keep);
    var j :| 0 <= j < |kept.subs| && kept.subs[j].kind == VEvent && GetUid(kept.subs[j]).Some? && GetUid(kept.subs[j]).value == keep;
    assert IsEventAt(kept, j);
    var f := FirstEvent(kept);
    var i :| IsEventAt(kept, i) && f == kept.subs[i] && forall k :: 0 <= k < i ==> !IsEventAt(kept, k);
    assert kept.subs[i] in cal.comp.tree.subs;
    var m :| 0 <= m < |cal.comp.tree.subs| && cal.comp.tree.subs[m] == kept.subs[i];
    assert IsEventAt(cal.comp.tree, m);
    assert GetUid(f).value in UidSet(kept);
  }

  /** Every event of the renamed document reports `uid` as the calendar UID. */
  lemma WithUidCalendarUid(tree: IcalComponent, uid: string)
    requires exists j :: IsEventAt(tree, j)
    ensures GetUid(FirstEvent(Renamed(tree, uid))) == Some(uid)
  {
    RenamedEvents(tree, uid);
    var j :| IsEventAt(tree, j);
    assert IsEventAt(Renamed(tree, uid), j);
  }
}
