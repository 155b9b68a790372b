/**
 * The component tree libical parses an iCalendar text into, and the
 * `IcalComponent` operations over it: property lookup by kind and by name,
 * and recursive removal of every property of one kind. It also restates the
 * libical accessors the wrappers build on (`get_inner`, `get_uid`,
 * `get_dtstart`, `get_dtend`, `get_duration`).
 */
module Component {
  import opened Wrappers
  import opened Times

  /** The property kinds this model tells apart; AnyProperty and NoProperty only occur in queries. */
  datatype PropKind =
    | AnyProperty | NoProperty
    | Uid | DtStart | DtEnd | Duration | RRule | Summary | Description | Location
    | DtStamp | LastModified | ProdId | Version | XLicError | XProperty
    | Other(name: string)

  /** A property value: text, a date or date-time, or a duration in seconds. */
  datatype Value = Text(text: string) | Time(time: IcalTime) | Seconds(seconds: int)

  datatype Property = Property(kind: PropKind, value: Value)

  datatype CompKind =
    | VCalendar | VEvent | VTodo | VJournal | VFreeBusy | VTimezone | VAlarm | XComponent
    | NoComponent

  /**
   * A component with its properties and sub-components, in file order. The
   * component kind NoComponent with nothing inside stands for libical's
   * null component pointer.
   */
  datatype IcalComponent = IcalComponent(kind: CompKind, props: seq<Property>, subs: seq<IcalComponent>)

  const NullComponent: IcalComponent := IcalComponent(NoComponent, [], [])

  /** `icalcomponent_kind_to_string`. */
  function KindName(k: CompKind): string
  {
    match k
    case VCalendar => "VCALENDAR"
    case VEvent => "VEVENT"
    case VTodo => "VTODO"
    case VJournal => "VJOURNAL"
    case VFreeBusy => "VFREEBUSY"
    case VTimezone => "VTIMEZONE"
    case VAlarm => "VALARM"
    case XComponent => "X"
    case NoComponent => ""
  }

  // ---------------------------------------------------------------------
  // Property kinds and their names

  /** The kinds `icalproperty_string_to_kind` finds in its name table. */
  predicate IsNamed(k: PropKind)
  {
    !(k.AnyProperty? || k.NoProperty? || k.XProperty? || k.Other?)
  }

  function PropName(k: PropKind): (r: string)
    ensures IsNamed(k) ==> forall i :: 0 <= i < |r| ==> !('a' <= r[i] <= 'z')
  {
    match k
    case Uid => "UID"
    case DtStart => "DTSTART"
    case DtEnd => "DTEND"
    case Duration => "DURATION"
    case RRule => "RRULE"
    case Summary => "SUMMARY"
    case Description => "DESCRIPTION"
    case Location => "LOCATION"
    case DtStamp => "DTSTAMP"
    case LastModified => "LAST-MODIFIED"
    case ProdId => "PRODID"
    case Version => "VERSION"
    case XLicError => "X-LIC-ERROR"
    case XProperty => "X"
    case Other(name) => name
    case _ => ""
  }

  function UpperChar(c: char): char
  {
    if 'a' <= c <= 'z' then (c as int - 32) as char else c
  }

  /** ASCII upper-casing, as `strcasecmp` compares. */
  function Upper(s: string): (r: string)
  {
    seq(|s|, i requires 0 <= i < |s| => UpperChar(s[i]))
  }

  /**
   * The remaining property names of RFC 5545 (sections 3.7 and 3.8). libical
   * gives each its own kind; this model tells them apart by name, as `Other`.
   */
  const OtherPropertyNames: set<string> := {
    "CALSCALE", "METHOD", "ATTACH", "CATEGORIES", "CLASS", "COMMENT", "GEO",
    "PERCENT-COMPLETE", "PRIORITY", "RESOURCES", "STATUS", "COMPLETED", "DUE",
    "FREEBUSY", "TRANSP", "TZID", "TZNAME", "TZOFFSETFROM", "TZOFFSETTO", "TZURL",
    "ATTENDEE", "CONTACT", "ORGANIZER", "RECURRENCE-ID", "RELATED-TO", "URL",
    "EXDATE", "RDATE", "ACTION", "REPEAT", "TRIGGER", "CREATED", "SEQUENCE",
    "REQUEST-STATUS"
  }

  /** The name table, searched with the upper-cased name. */
  function LookupName(u: string): (r: Option<PropKind>)
    ensures r.Some? && !r.value.Other? ==> IsNamed(r.value) && PropName(r.value) == u
    ensures r.Some? && r.value.Other? ==> r.value == Other(u) && u in OtherPropertyNames
    ensures u in OtherPropertyNames ==> r == Some(Other(u))
  {
    if u == "UID" then Some(Uid)
    else if u == "DTSTART" then Some(DtStart)
    else if u == "DTEND" then Some(DtEnd)
    else if u == "DURATION" then Some(Duration)
    else if u == "RRULE" then Some(RRule)
    else if u == "SUMMARY" then Some(Summary)
    else if u == "DESCRIPTION" then Some(Description)
    else if u == "LOCATION" then Some(Location)
    else if u == "DTSTAMP" then Some(DtStamp)
    else if u == "LAST-MODIFIED" then Some(LastModified)
    else if u == "PRODID" then Some(ProdId)
    else if u == "VERSION" then Some(Version)
    else if u == "X-LIC-ERROR" then Some(XLicError)
    else if u in OtherPropertyNames then Some(Other(u))
    else None
  }

  /**
   * `icalproperty_string_to_kind`: a case-insensitive match against the
   * name table; failing that, any name starting with "X-" is an extension
   * property; anything else is no property at all.
   */
  function KindFromName(name: string): (r: PropKind)
    ensures r != AnyProperty
    ensures IsNamed(r) ==> PropName(r) == Upper(name)
    ensures r.Other? <==> Upper(name) in OtherPropertyNames
    ensures r.Other? ==> r.name == Upper(name)
    ensures r == XProperty ==> |name| >= 2 && name[..2] == "X-"
  {
    match LookupName(Upper(name))
    case Some(k) => k
    case None => if |name| >= 2 && name[..2] == "X-" then XProperty else NoProperty
  }

  lemma UpperKeepsUpper(s: string)
    requires forall i :: 0 <= i < |s| ==> !('a' <= s[i] <= 'z')
    ensures Upper(s) == s
  {
  }

  /** Every name in the table leads back to its own kind. */
  lemma KindNameRoundTrip(k: PropKind)
    requires IsNamed(k)
    ensures KindFromName(PropName(k)) == k
  {
    UpperKeepsUpper(PropName(k));
  }

  /** The name lookup ignores case. */
  lemma KindFromNameIgnoresCase()
    ensures KindFromName("summary") == Summary
  {
    assert Upper("summary") == "SUMMARY";
  }

  /** RFC 5545 names outside the enumerated kinds are found, in any case. */
  lemma OrganizerHasKind()
    ensures KindFromName("ORGANIZER") == Other("ORGANIZER")
    ensures KindFromName("organizer") == Other("ORGANIZER")
  {
    assert Upper("organizer") == "ORGANIZER";
    UpperKeepsUpper("ORGANIZER");
  }

  /** A name outside the table that does not start with "X-" names no kind. */
  lemma UnknownNameHasNoKind()
    ensures KindFromName("NONSENSE") == NoProperty
  {
    var u := "NONSENSE";
    UpperKeepsUpper(u);
    assert u[0] == 'N' && u[1] == 'O';
    assert LookupName(u) == None;
  }

  /** No property of a parsed component carries a query kind. */
  predicate WellKinded(c: IcalComponent)
  {
    forall i :: 0 <= i < |c.props| ==> c.props[i].kind != AnyProperty && c.props[i].kind != NoProperty
  }

  // ---------------------------------------------------------------------
  // Property lookup

  /** libical's match test: ICAL_ANY_PROPERTY matches every property. */
  predicate Matches(p: Property, kind: PropKind)
  {
    kind == AnyProperty || p.kind == kind
  }

  /** The properties whose match against `kind` is `keep`, in order. */
  function Keep(props: seq<Property>, kind: PropKind, keep: bool): (r: seq<Property>)
    ensures |r| <= |props|
  {
    if props == [] then []
    else (if Matches(props[0], kind) == keep then [props[0]] else []) + Keep(props[1..], kind, keep)
  }

  function Matching(props: seq<Property>, kind: PropKind): seq<Property>
  {
    Keep(props, kind, true)
  }

  /** Keep holds exactly the properties of the list whose match is `keep`. */
  lemma {:induction false} KeepMembers(props: seq<Property>, kind: PropKind, keep: bool)
    ensures forall p :: p in Keep(props, kind, keep) <==> p in props && Matches(p, kind) == keep
  {
    if props != [] {
      KeepMembers(props[1..], kind, keep);
      assert props == [props[0]] + props[1..];
    }
  }

  lemma KeepAppend(a: seq<Property>, x: Property, kind: PropKind, keep: bool)
    ensures Keep(a + [x], kind, keep) == Keep(a, kind, keep) + (if Matches(x, kind) == keep then [x] else [])
  {
    KeepConcat(a, [x], kind, keep);
    assert [x][1..] == [];
  }

  lemma {:induction false} KeepConcat(a: seq<Property>, b: seq<Property>, kind: PropKind, keep: bool)
    ensures Keep(a + b, kind, keep) == Keep(a, kind, keep) + Keep(b, kind, keep)
  {
    if a == [] {
      assert a + b == b;
    } else {
      var h := if Matches(a[0], kind) == keep then [a[0]] else [];
      assert (a + b)[0] == a[0];
      assert (a + b)[1..] == a[1..] + b;
      KeepConcat(a[1..], b, kind, keep);
      calc {
        Keep(a + b, kind, keep);
        h + Keep(a[1..] + b, kind, keep);
        h + (Keep(a[1..], kind, keep) + Keep(b, kind, keep));
        { assert h + (Keep(a[1..], kind, keep) + Keep(b, kind, keep)) == (h + Keep(a[1..], kind, keep)) + Keep(b, kind, keep); }
        Keep(a, kind, keep) + Keep(b, kind, keep);
      }
    }
  }

  lemma {:induction false} KeepSplits(props: seq<Property>, kind: PropKind)
    ensures |Keep(props, kind, true)| + |Keep(props, kind, false)| == |props|
  {
    if props != [] {
      KeepSplits(props[1..], kind);
    }
  }

  lemma {:induction false} KeepAny(props: seq<Property>)
    ensures Keep(props, AnyProperty, true) == props
    ensures Keep(props, AnyProperty, false) == []
  {
    if props != [] {
      KeepAny(props[1..]);
    }
  }

  lemma {:induction false} KeepOther(props: seq<Property>, kind: PropKind, other: PropKind)
    requires kind != AnyProperty && other != AnyProperty && other != kind
    ensures Keep(Keep(props, kind, false), other, true) == Keep(props, other, true)
  {
    if props != [] {
      KeepOther(props[1..], kind, other);
      KeepConcat(if !Matches(props[0], kind) then [props[0]] else [], Keep(props[1..], kind, false), other, true);
    }
  }

  /** Index of the first property of `kind`, or |props| if there is none. */
  function FirstIndex(props: seq<Property>, kind: PropKind): (r: nat)
    ensures r <= |props|
    ensures r < |props| ==> Matches(props[r], kind)
    ensures forall i :: 0 <= i < r ==> !Matches(props[i], kind)
  {
    if props == [] then 0
    else if Matches(props[0], kind) then 0
    else 1 + FirstIndex(props[1..], kind)
  }

  /** `IcalComponent::get_property`: `icalcomponent_get_first_property`, the first property of `kind`. */
  function GetProperty(c: IcalComponent, kind: PropKind): (r: Option<Property>)
    ensures r.None? <==> forall i :: 0 <= i < |c.props| ==> !Matches(c.props[i], kind)
    ensures r.Some? ==> exists i :: 0 <= i < |c.props| && c.props[i] == r.value && Matches(r.value, kind)
                                   && forall j :: 0 <= j < i ==> !Matches(c.props[j], kind)
  {
    var i := FirstIndex(c.props, kind);
    if i < |c.props| then Some(c.props[i]) else None
  }

  /** The single lookup agrees with the list lookup: it is the head of the list. */
  lemma {:induction false} GetPropertyIsFirstOfList(props: seq<Property>, kind: PropKind)
    ensures GetProperty(IcalComponent(NoComponent, props, []), kind)
            == if Matching(props, kind) == [] then None else Some(Matching(props, kind)[0])
  {
    if props != [] {
      GetPropertyIsFirstOfList(props[1..], kind);
    }
  }

  /**
   * `IcalComponent::get_properties`: walk libical's property iterator for
   * `kind`, collecting every property it yields.
   */
  method GetProperties(c: IcalComponent, kind: PropKind) returns (properties: seq<Property>)
    ensures properties == Matching(c.props, kind)
  {
    properties := [];
    var i := 0;
    while i < |c.props|
      invariant 0 <= i <= |c.props|
      invariant properties == Matching(c.props[..i], kind)
    {
      KeepAppend(c.props[..i], c.props[i], kind, true);
      assert c.props[..i + 1] == c.props[..i] + [c.props[i]];
      if Matches(c.props[i], kind) {
        properties := properties + [c.props[i]];
      }
      i := i + 1;
    }
    assert c.props[..i] == c.props;
  }

  /** `IcalComponent::get_properties_all`: every property, in order. */
  method GetPropertiesAll(c: IcalComponent) returns (properties: seq<Property>)
    ensures properties == c.props
  {
    properties := GetProperties(c, AnyProperty);
    KeepAny(c.props);
  }

  /** `IcalComponent::get_properties_by_name`; the name must not hold a NUL (`CString::new(..).unwrap()`). */
  method GetPropertiesByName(c: IcalComponent, name: string) returns (properties: seq<Property>)
    requires '\0' !in name
    ensures forall p :: p in properties <==> p in c.props && p.kind == KindFromName(name)
    ensures WellKinded(c) && KindFromName(name) == NoProperty ==> properties == []
  {
    properties := GetProperties(c, KindFromName(name));
    KeepMembers(c.props, KindFromName(name), true);
    if WellKinded(c) {
      NothingOfNoKind(c.props);
    }
  }

  lemma {:induction false} NothingOfNoKind(props: seq<Property>)
    requires forall i :: 0 <= i < |props| ==> props[i].kind != NoProperty
    ensures Keep(props, NoProperty, true) == []
  {
    if props != [] {
      NothingOfNoKind(props[1..]);
    }
  }

  /** `IcalComponent::get_property_by_name`; a name no kind answers to finds nothing. */
  function GetPropertyByName(c: IcalComponent, name: string): (r: Option<Property>)
    requires '\0' !in name
    ensures r.Some? ==> r.value in c.props && r.value.kind == KindFromName(name)
    ensures r.None? <==> forall i :: 0 <= i < |c.props| ==> c.props[i].kind != KindFromName(name)
    ensures WellKinded(c) && KindFromName(name) == NoProperty ==> r.None?
  {
    GetProperty(c, KindFromName(name))
  }

  // ---------------------------------------------------------------------
  // Removing every property of a kind, throughout the tree

  /** How many properties of `kind` the tree rooted at `c` holds. */
  function CountKind(c: IcalComponent, kind: PropKind): nat
    decreases c, |c.subs| + 1
  {
    |Matching(c.props, kind)| + CountInChildren(c, kind, |c.subs|)
  }

  /** CountKind summed over the first `k` sub-components of `c`. */
  function CountInChildren(c: IcalComponent, kind: PropKind, k: nat): nat
    requires k <= |c.subs|
    decreases c, k
  {
    if k == 0 then 0 else CountInChildren(c, kind, k - 1) + CountKind(c.subs[k - 1], kind)
  }

  /** The intended effect of `remove_property_all`: the tree without any property of `kind`. */
  function Strip(c: IcalComponent, kind: PropKind): (r: IcalComponent)
    ensures r.kind == c.kind && |r.subs| == |c.subs|
    decreases c, |c.subs| + 1
  {
    IcalComponent(c.kind, Keep(c.props, kind, false), StripChildren(c, kind, |c.subs|))
  }

  /** Strip applied to the first `k` sub-components of `c`. */
  function StripChildren(c: IcalComponent, kind: PropKind, k: nat): (r: seq<IcalComponent>)
    requires k <= |c.subs|
    ensures |r| == k
    decreases c, k
  {
    if k == 0 then [] else StripChildren(c, kind, k - 1) + [Strip(c.subs[k - 1], kind)]
  }

  /** The `i`-th stripped sub-component is the `i`-th sub-component, stripped. */
  lemma {:induction false} StripChildrenAt(c: IcalComponent, kind: PropKind, k: nat, i: nat)
    requires i < k <= |c.subs|
    ensures StripChildren(c, kind, k)[i] == Strip(c.subs[i], kind)
    decreases k
  {
    if i < k - 1 {
      StripChildrenAt(c, kind, k - 1, i);
    }
  }

  lemma {:induction false} NoneLeft(props: seq<Property>, kind: PropKind)
    ensures Keep(Keep(props, kind, false), kind, true) == []
  {
    if props != [] {
      NoneLeft(props[1..], kind);
      KeepConcat(if !Matches(props[0], kind) then [props[0]] else [], Keep(props[1..], kind, false), kind, true);
    }
  }

  /** After stripping, no property of the kind is left anywhere in the tree. */
  lemma {:induction false} StripLeavesNone(c: IcalComponent, kind: PropKind)
    ensures CountKind(Strip(c, kind), kind) == 0
    decreases c, |c.subs| + 1
  {
    NoneLeft(c.props, kind);
    StrippedChildrenHoldNone(c, kind, |c.subs|);
  }

  lemma {:induction false} StrippedChildrenHoldNone(c: IcalComponent, kind: PropKind, k: nat)
    requires k <= |c.subs|
    ensures CountInChildren(Strip(c, kind), kind, k) == 0
    decreases c, k
  {
    if k > 0 {
      StrippedChildrenHoldNone(c, kind, k - 1);
      StripChildrenAt(c, kind, |c.subs|, k - 1);
      StripLeavesNone(c.subs[k - 1], kind);
    }
  }

  /** Stripping one kind leaves every other kind's properties exactly as they were, everywhere. */
  lemma {:induction false} StripKeepsOthers(c: IcalComponent, kind: PropKind, other: PropKind)
    requires kind != AnyProperty && other != AnyProperty && other != kind
    ensures Matching(Strip(c, kind).props, other) == Matching(c.props, other)
    ensures CountKind(Strip(c, kind), other) == CountKind(c, other)
    decreases c, |c.subs| + 1
  {
    KeepOther(c.props, kind, other);
    StrippedChildrenKeepOthers(c, kind, other, |c.subs|);
  }

  lemma {:induction false} StrippedChildrenKeepOthers(c: IcalComponent, kind: PropKind, other: PropKind, k: nat)
    requires kind != AnyProperty && other != AnyProperty && other != kind
    requires k <= |c.subs|
    ensures CountInChildren(Strip(c, kind), other, k) == CountInChildren(c, other, k)
    decreases c, k
  {
    if k > 0 {
      StrippedChildrenKeepOthers(c, kind, other, k - 1);
      StripChildrenAt(c, kind, |c.subs|, k - 1);
      StripKeepsOthers(c.subs[k - 1], kind, other);
    }
  }

  /** Every property of the tree is either removed and counted, or kept. */
  lemma {:induction false} StripAccounts(c: IcalComponent, kind: PropKind)
    ensures CountKind(c, AnyProperty) == CountKind(Strip(c, kind), AnyProperty) + CountKind(c, kind)
    decreases c, |c.subs| + 1
  {
    KeepAny(c.props);
    KeepAny(Keep(c.props, kind, false));
    KeepSplits(c.props, kind);
    StrippedChildrenAccount(c, kind, |c.subs|);
  }

  lemma {:induction false} StrippedChildrenAccount(c: IcalComponent, kind: PropKind, k: nat)
    requires k <= |c.subs|
    ensures CountInChildren(c, AnyProperty, k) == CountInChildren(Strip(c, kind), AnyProperty, k) + CountInChildren(c, kind, k)
    decreases c, k
  {
    if k > 0 {
      StrippedChildrenAccount(c, kind, k - 1);
      StripChildrenAt(c, kind, |c.subs|, k - 1);
      StripAccounts(c.subs[k - 1], kind);
    }
  }

  /**
   * The property loop of `remove_property_inner` as intended: walk the
   * list, dropping and counting each property of `kind`.
   */
  method RemoveMatching(orig: seq<Property>, kind: PropKind) returns (props: seq<Property>, count: nat)
    ensures props == Keep(orig, kind, false)
    ensures count == |Matching(orig, kind)|
  {
    props := [];
    count := 0;
    var j := 0;
    while j < |orig|
      invariant 0 <= j <= |orig|
      invariant props == Keep(orig[..j], kind, false)
      invariant count == |Keep(orig[..j], kind, true)|
    {
      assert orig[..j + 1] == orig[..j] + [orig[j]];
      KeepAppend(orig[..j], orig[j], kind, false);
      KeepAppend(orig[..j], orig[j], kind, true);
      if Matches(orig[j], kind) {
        count := count + 1;
      } else {
        props := props + [orig[j]];
      }
      j := j + 1;
    }
    assert orig[..j] == orig;
  }

  /**
   * `remove_property_inner` as intended: remove each property of `kind`
   * from `comp` while counting, then recurse into every sub-component.
   * The count is the number of properties removed.
   */
  method RemovePropertyInner(comp: IcalComponent, kind: PropKind) returns (r: IcalComponent, count: nat)
    ensures r == Strip(comp, kind)
    ensures count == CountKind(comp, kind)
    decreases comp, 1
  {
    var props, n := RemoveMatching(comp.props, kind);
    var subs, m := RemoveFromChildren(comp, kind);
    r := IcalComponent(comp.kind, props, subs);
    count := n + m;
  }

  /** The sub-component loop of `remove_property_inner`: recurse into each child, adding up the counts. */
  method RemoveFromChildren(comp: IcalComponent, kind: PropKind) returns (subs: seq<IcalComponent>, count: nat)
    ensures subs == StripChildren(comp, kind, |comp.subs|)
    ensures count == CountInChildren(comp, kind, |comp.subs|)
    decreases comp, 0
  {
    subs := [];
    count := 0;
    var k := 0;
    while k < |comp.subs|
      invariant 0 <= k <= |comp.subs|
      invariant subs == StripChildren(comp, kind, k)
      invariant count == CountInChildren(comp, kind, k)
    {
      var sub, n := RemovePropertyInner(comp.subs[k], kind);
      ChildStep(comp, kind, k);
      subs := subs + [sub];
      count := count + n;
      k := k + 1;
    }
  }

  /** Taking one more sub-component into StripChildren and CountInChildren. */
  lemma ChildStep(comp: IcalComponent, kind: PropKind, k: nat)
    requires k < |comp.subs|
    ensures StripChildren(comp, kind, k + 1) == StripChildren(comp, kind, k) + [Strip(comp.subs[k], kind)]
    ensures CountInChildren(comp, kind, k + 1) == CountInChildren(comp, kind, k) + CountKind(comp.subs[k], kind)
  {
  }

  // ---------------------------------------------------------------------
  // The removal loop as written against libical's property cursor

  /**
   * What the loop leaves: `icalcomponent_remove_property` moves the cursor
   * to the next property whatever its kind, and `get_current_property`
   * returns it, so everything from the first match onwards goes.
   */
  function StripAsWritten(c: IcalComponent, kind: PropKind): (r: IcalComponent)
    ensures r.kind == c.kind && |r.subs| == |c.subs|
    decreases c, |c.subs| + 1
  {
    IcalComponent(c.kind, c.props[..FirstIndex(c.props, kind)], StripChildrenAsWritten(c, kind, |c.subs|))
  }

  function StripChildrenAsWritten(c: IcalComponent, kind: PropKind, k: nat): (r: seq<IcalComponent>)
    requires k <= |c.subs|
    ensures |r| == k
    decreases c, k
  {
    if k == 0 then [] else StripChildrenAsWritten(c, kind, k - 1) + [StripAsWritten(c.subs[k - 1], kind)]
  }

  /** What the loop counts: every property it removed. */
  function CountAsWritten(c: IcalComponent, kind: PropKind): nat
    decreases c, |c.subs| + 1
  {
    |c.props| - FirstIndex(c.props, kind) + CountInChildrenAsWritten(c, kind, |c.subs|)
  }

  function CountInChildrenAsWritten(c: IcalComponent, kind: PropKind, k: nat): nat
    requires k <= |c.subs|
    decreases c, k
  {
    if k == 0 then 0 else CountInChildrenAsWritten(c, kind, k - 1) + CountAsWritten(c.subs[k - 1], kind)
  }

  /** `remove_property_inner` as written: the cursor loop, then the same recursion. */
  method RemovePropertyInnerAsWritten(comp: IcalComponent, kind: PropKind) returns (r: IcalComponent, count: nat)
    ensures r == StripAsWritten(comp, kind)
    ensures count == CountAsWritten(comp, kind)
    decreases comp, 1
  {
    var props, n := RemoveWithCursor(comp.props, kind);
    var subs, m := RemoveFromChildrenAsWritten(comp, kind);
    r := IcalComponent(comp.kind, props, subs);
    count := n + m;
  }

  /**
   * The property loop as written: the cursor starts at the first match;
   * each removal leaves it on the next property, which the loop removes
   * next whatever its kind.
   */
  method RemoveWithCursor(orig: seq<Property>, kind: PropKind) returns (props: seq<Property>, count: nat)
    ensures props == orig[..FirstIndex(orig, kind)]
    ensures count == |orig| - FirstIndex(orig, kind)
  {
    props := orig;
    count := 0;
    var cur := FirstIndex(props, kind);
    while cur < |props|
      invariant cur == FirstIndex(orig, kind)
      invariant cur + count <= |orig|
      invariant props == orig[..cur] + orig[cur + count..]
      decreases |props|
    {
      props := props[..cur] + props[cur + 1..];
      count := count + 1;
    }
    assert props == orig[..cur];
  }

  method RemoveFromChildrenAsWritten(comp: IcalComponent, kind: PropKind) returns (subs: seq<IcalComponent>, count: nat)
    ensures subs == StripChildrenAsWritten(comp, kind, |comp.subs|)
    ensures count == CountInChildrenAsWritten(comp, kind, |comp.subs|)
    decreases comp, 0
  {
    subs := [];
    count := 0;
    var k := 0;
    while k < |comp.subs|
      invariant 0 <= k <= |comp.subs|
      invariant subs == StripChildrenAsWritten(comp, kind, k)
      invariant count == CountInChildrenAsWritten(comp, kind, k)
    {
      var sub, n := RemovePropertyInnerAsWritten(comp.subs[k], kind);
      assert StripChildrenAsWritten(comp, kind, k + 1) == subs + [sub];
      assert CountInChildrenAsWritten(comp, kind, k + 1) == count + n;
      subs := subs + [sub];
      count := count + n;
      k := k + 1;
    }
  }

  /**
   * The loop as written removes more than asked: removing DTSTART from an
   * event whose SUMMARY follows it also removes the SUMMARY, and reports two
   * removals where there was one DTSTART.
   */
  lemma RemoveAsWrittenTakesFollowers(start: IcalTime)
    ensures var event := IcalComponent(VEvent, [Property(Uid, Text("u")), Property(DtStart, Time(start)),
                                                Property(Summary, Text("s"))], []);
            && StripAsWritten(event, DtStart).props == [Property(Uid, Text("u"))]
            && Matching(StripAsWritten(event, DtStart).props, Summary) != Matching(event.props, Summary)
            && CountAsWritten(event, DtStart) == 2
            && CountKind(event, DtStart) == 1
  {
    var event := IcalComponent(VEvent, [Property(Uid, Text("u")), Property(DtStart, Time(start)),
                                        Property(Summary, Text("s"))], []);
    var u, d, t := Property(Uid, Text("u")), Property(DtStart, Time(start)), Property(Summary, Text("s"));
    assert event.props == [u, d, t];
    assert [u, d, t][1..] == [d, t] && [d, t][1..] == [t] && [t][1..] == [];
    assert FirstIndex(event.props, DtStart) == 1;
    assert Matching([u], Summary) == [];
    assert Matching([t], Summary) == [t] && Matching([t], DtStart) == [];
    assert Matching([d, t], Summary) == [t] && Matching([d, t], DtStart) == [d];
    assert Matching([u, d, t], Summary) == [t];
    assert Matching([u, d, t], DtStart) == [d];
  }

  // ---------------------------------------------------------------------
  // libical's typed accessors

  /** Kinds `icalcomponent_get_first_real_component` accepts. */
  predicate IsReal(k: CompKind)
  {
    k == VEvent || k == VTodo || k == VJournal || k == VFreeBusy
  }

  function FirstReal(subs: seq<IcalComponent>): (r: Option<IcalComponent>)
    ensures r.Some? ==> r.value in subs && IsReal(r.value.kind)
    ensures r.None? <==> forall i :: 0 <= i < |subs| ==> !IsReal(subs[i].kind)
  {
    if subs == [] then None
    else if IsReal(subs[0].kind) then Some(subs[0])
    else FirstReal(subs[1..])
  }

  /** `icalcomponent_get_inner`: a VCALENDAR's first real sub-component, any other component itself. */
  function Inner(c: IcalComponent): (r: Option<IcalComponent>)
    ensures c.kind != VCalendar ==> r == Some(c)
    ensures c.kind == VCalendar ==> r == FirstReal(c.subs)
  {
    if c.kind == VCalendar then FirstReal(c.subs) else Some(c)
  }

  /** `icalcomponent_get_uid`: the text of the inner component's first UID. */
  function GetUid(c: IcalComponent): (r: Option<string>)
    ensures r.Some? ==> Inner(c).Some? && Property(Uid, Text(r.value)) in Inner(c).value.props
  {
    match Inner(c)
    case None => None
    case Some(inner) =>
      match GetProperty(inner, Uid)
      case Some(Property(_, Text(s))) => Some(s)
      case _ => None
  }

  /**
   * The UID read is the first UID property of the inner component: there is
   * one exactly when that property exists and holds text, and it is that text.
   */
  lemma GetUidIsFirstUid(c: IcalComponent)
    ensures GetUid(c).Some? <==> Inner(c).Some? && GetProperty(Inner(c).value, Uid).Some?
                                 && GetProperty(Inner(c).value, Uid).value.value.Text?
    ensures GetUid(c).Some? ==> GetProperty(Inner(c).value, Uid).value == Property(Uid, Text(GetUid(c).value))
  {
  }

  /** `icalcomponent_set_uid`: overwrite the first UID, or add one at the end. */
  function SetUid(c: IcalComponent, uid: string): (r: IcalComponent)
    requires c.kind != VCalendar
    ensures r.kind == c.kind && r.subs == c.subs
    ensures GetUid(r) == Some(uid)
    ensures forall k :: k != Uid && k != AnyProperty ==> Matching(r.props, k) == Matching(c.props, k)
  {
    var i := FirstIndex(c.props, Uid);
    var props := if i < |c.props| then c.props[i := Property(Uid, Text(uid))] else c.props + [Property(Uid, Text(uid))];
    var r := IcalComponent(c.kind, props, c.subs);
    assert FirstIndex(props, Uid) == i by {
      var f := FirstIndex(props, Uid);
      assert i < |props| && Matches(props[i], Uid);
      assert f <= i;
      assert forall j :: 0 <= j < i ==> props[j] == c.props[j];
    }
    forall k | k != Uid && k != AnyProperty
      ensures Matching(props, k) == Matching(c.props, k)
    {
      if i < |c.props| {
        KeepReplace(c.props, i, Property(Uid, Text(uid)), k);
      } else {
        KeepAppend(c.props, Property(Uid, Text(uid)), k, true);
      }
    }
    r
  }

  lemma {:induction false} KeepReplace(props: seq<Property>, i: nat, p: Property, k: PropKind)
    requires i < |props| && !Matches(props[i], k) && !Matches(p, k)
    ensures Keep(props[i := p], k, true) == Keep(props, k, true)
  {
    if i > 0 {
      assert props[i := p][1..] == props[1..][i - 1 := p];
      KeepReplace(props[1..], i - 1, p, k);
    } else {
      assert props[i := p][1..] == props[1..];
    }
  }

  function TimeOf(p: Option<Property>): IcalTime
  {
    match p
    case Some(Property(_, Time(t))) => t
    case _ => NullTime
  }

  function SecondsOf(p: Option<Property>): int
  {
    match p
    case Some(Property(_, Seconds(s))) => s
    case _ => 0
  }

  /** `icalcomponent_get_dtstart`: the inner component's DTSTART, else the null time. */
  function GetDtStart(c: IcalComponent): (r: IcalTime)
    ensures Inner(c).None? || GetProperty(Inner(c).value, DtStart).None? ==> r == NullTime
  {
    match Inner(c)
    case None => NullTime
    case Some(inner) => TimeOf(GetProperty(inner, DtStart))
  }

  /**
   * `icalcomponent_get_dtend`: DTEND if present; otherwise DTSTART moved by
   * DURATION; otherwise the null time.
   */
  function GetDtEnd(c: IcalComponent): (r: IcalTime)
    ensures Inner(c).Some? && GetProperty(Inner(c).value, DtEnd).None? && GetProperty(Inner(c).value, Duration).Some? ==>
              r == AddSeconds(GetDtStart(c), SecondsOf(GetProperty(Inner(c).value, Duration)))
    ensures Inner(c).None? || (GetProperty(Inner(c).value, DtEnd).None? && GetProperty(Inner(c).value, Duration).None?) ==>
              r == NullTime
  {
    match Inner(c)
    case None => NullTime
    case Some(inner) =>
      var endProp := GetProperty(inner, DtEnd);
      var durProp := GetProperty(inner, Duration);
      if endProp.Some? then TimeOf(endProp)
      else if durProp.Some? then AddSeconds(GetDtStart(c), SecondsOf(durProp))
      else NullTime
  }

  /**
   * `icalcomponent_get_duration`: DURATION when there is no DTEND, DTEND
   * minus DTSTART when there is no DURATION, otherwise none (libical's null
   * duration). The difference is `icaltime_subtract`'s, taken between the
   * wall-clock fields with both zones ignored.
   */
  function GetDuration(c: IcalComponent): (r: Option<int>)
    ensures r.Some? <==> Inner(c).Some? && (GetProperty(Inner(c).value, DtEnd).Some? != GetProperty(Inner(c).value, Duration).Some?)
    ensures r.Some? && GetProperty(Inner(c).value, Duration).Some? ==>
              r.value == SecondsOf(GetProperty(Inner(c).value, Duration))
    ensures r.Some? && GetProperty(Inner(c).value, DtEnd).Some? ==>
              r.value == Subtract(TimeOf(GetProperty(Inner(c).value, DtEnd)), GetDtStart(c))
  {
    match Inner(c)
    case None => None
    case Some(inner) =>
      var endProp := GetProperty(inner, DtEnd);
      var durProp := GetProperty(inner, Duration);
      if durProp.Some? && endProp.None? then Some(SecondsOf(durProp))
      else if endProp.Some? && durProp.None? then Some(Subtract(TimeOf(endProp), GetDtStart(c)))
      else None
  }

  /** An event with just DTSTART and DTEND lasts from the one to the other on the wall clock. */
  lemma StartEndDuration(c: IcalComponent, start: IcalTime, end: IcalTime)
    requires c.kind != VCalendar && c.props == [Property(DtStart, Time(start)), Property(DtEnd, Time(end))]
    ensures GetDuration(c) == Some(Subtract(end, start))
  {
    var pe := Property(DtEnd, Time(end));
    assert GetDtStart(c) == start by {
      assert FirstIndex(c.props, DtStart) == 0;
    }
    assert GetProperty(c, DtEnd) == Some(pe) by {
      assert c.props[1..] == [pe];
      assert FirstIndex(c.props, DtEnd) == 1 + FirstIndex([pe], DtEnd) == 1;
    }
    assert GetProperty(c, Duration).None? by {
      assert c.props[1..] == [pe] && [pe][1..] == [];
      assert FirstIndex(c.props, Duration) == 2 + FirstIndex([], Duration) == 2;
    }
  }

  /**
   * Across a daylight-saving change the duration is the wall-clock
   * difference: 01:00 at UTC+1 to 04:00 at UTC+2 lasts three hours, though
   * only two hours pass in UTC.
   */
  lemma DurationIgnoresZones()
    ensures var start := IcalTime(2018, 3, 25, 1, 0, 0, false, 3600);
            var end := IcalTime(2018, 3, 25, 4, 0, 0, false, 7200);
            var ev := IcalComponent(VEvent, [Property(DtStart, Time(start)), Property(DtEnd, Time(end))], []);
            GetDuration(ev) == Some(10800) && AsUnix(end) - AsUnix(start) == 7200
  {
    var start := IcalTime(2018, 3, 25, 1, 0, 0, false, 3600);
    var end := IcalTime(2018, 3, 25, 4, 0, 0, false, 7200);
    StartEndDuration(IcalComponent(VEvent, [Property(DtStart, Time(start)), Property(DtEnd, Time(end))], []), start, end);
    var day := DaysFromCivil(2018, 3, 25) * SecondsPerDay;
    assert WallClock(start) == day + 3600;
    assert WallClock(end) == day + 4 * 3600;
  }
}
