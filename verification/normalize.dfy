/** The upstream-to-canonical normalizer of the schedule proxy
    (src/pages/api/schedule.ts:121-260): number and coordinate parsing,
    pricing options, sessions, and the cached entity lookup tables. The
    three process-wide caches are threaded through as an explicit
    `EntityTables` value, passed in and returned. */
module Normalize {
  import opened Optional
  import opened JsString
  import opened JsHost
  import opened Upstream
  import opened ScheduleTypes
  import EntityCache

  const UnknownClass := "unknown-class"
  const UnknownLocation := "unknown-location"
  const DefaultCoachName := "Coach"
  const DefaultLocationName := "Location"

  // ---------------------------------------------------------------------
  // Numbers and coordinates

  /** `sanitizeNumber`: absent, null and empty text give null; any other
      text gives its parsed value when that is finite, and null when it is
      NaN or an infinity. */
  function SanitizeNumber(host: Host, value: Option<string>): (r: Option<real>)
    ensures (value.None? || value.value == []) ==> r.None?
    ensures value.Some? && value.value != [] ==>
      (r.Some? <==> host.parseFloat(value.value).Finite?)
    ensures r.Some? ==> host.parseFloat(value.value) == Finite(r.value)
  {
    if value.None? || value.value == [] then None
    else FiniteValue(host.parseFloat(value.value))
  }

  datatype Coordinates = Coordinates(latitude: Option<real>, longitude: Option<real>)

  /** `parseLatLon`: split the text on commas, trim and parse the first two
      pieces; each coordinate is present only when its own piece parses to a
      finite number. Absent or empty text gives neither. */
  function ParseLatLon(host: Host, latLon: Option<string>): (r: Coordinates)
    ensures (latLon.None? || latLon.value == []) ==> r == Coordinates(None, None)
  {
    if latLon.None? || latLon.value == [] then Coordinates(None, None)
    else
      var parts := Split(latLon.value, ',');
      Coordinates(
        FiniteValue(host.parseFloat(Trim(parts[0]))),
        if |parts| >= 2 then FiniteValue(host.parseFloat(Trim(parts[1]))) else None)
  }

  /** For `"<a>,<b>"`, possibly followed by further comma-separated pieces,
      latitude comes from `a` alone and longitude from `b` alone. */
  lemma LatLonPair(host: Host, a: string, b: string, tail: string)
    requires ',' !in a && ',' !in b
    requires tail == [] || tail[0] == ','
    ensures ParseLatLon(host, Some(a + [','] + b + tail)) ==
      Coordinates(FiniteValue(host.parseFloat(Trim(a))), FiniteValue(host.parseFloat(Trim(b))))
  {
    var s := a + [','] + b + tail;
    assert s == a + [','] + (b + tail);
    SplitHead(a, ',', b + tail);
    var rest := Split(b + tail, ',');
    if tail == [] {
      SplitNoSeparator(b, ',');
      assert b + tail == b;
    } else {
      assert b + tail == b + [','] + tail[1..];
      SplitHead(b, ',', tail[1..]);
    }
    assert rest[0] == b;
    assert Split(s, ',')[0] == a && Split(s, ',')[1] == b;
  }

  /** Text without a comma gives a latitude from the whole (trimmed) text
      and no longitude: a missing second piece is not a failure. */
  lemma LatLonSingle(host: Host, a: string)
    requires a != [] && ',' !in a
    ensures ParseLatLon(host, Some(a)) == Coordinates(FiniteValue(host.parseFloat(Trim(a))), None)
  {
    SplitNoSeparator(a, ',');
  }

  // ---------------------------------------------------------------------
  // Pricing options and sessions

  function RetailText(option: PurchaseOption): Option<string> {
    if option.pricing.Some? then option.pricing.value.retail else None
  }

  function OnlineText(option: PurchaseOption): Option<string> {
    if option.pricing.Some? then option.pricing.value.online else None
  }

  /** One pricing option: id, name and flags carried over; each price read
      from the pricing record and sanitized, and null when the option has
      no pricing record. */
  function BuildPricingOption(host: Host, option: PurchaseOption): (p: PricingOption)
    ensures p.id == option.id && p.name == option.name
    ensures p.isPackage == option.isPackage && p.isIntroOffer == option.isIntroOffer
    ensures p.isSingleSession == option.isSingleSession
    ensures option.pricing.None? ==> p.retail.None? && p.online.None?
    ensures option.pricing.Some? ==>
      && p.retail == SanitizeNumber(host, option.pricing.value.retail)
      && p.online == SanitizeNumber(host, option.pricing.value.online)
  {
    PricingOption(
      option.id,
      option.name,
      SanitizeNumber(host, RetailText(option)),
      SanitizeNumber(host, OnlineText(option)),
      option.isPackage,
      option.isIntroOffer,
      option.isSingleSession)
  }

  /** `buildPurchaseOptions`: null or no options give `[]`; otherwise one
      pricing option per upstream option, in the same order, with the same
      id, name and flags, and with both prices passed through
      `SanitizeNumber`. */
  function BuildPurchaseOptions(host: Host, options: Option<seq<PurchaseOption>>): (r: seq<PricingOption>)
    ensures options.None? ==> r == []
    ensures options.Some? ==> |r| == |options.value|
    ensures options.Some? ==> forall i :: 0 <= i < |r| ==>
      var o := options.value[i];
      && r[i].id == o.id && r[i].name == o.name
      && r[i].retail == SanitizeNumber(host, RetailText(o))
      && r[i].online == SanitizeNumber(host, OnlineText(o))
      && r[i].isPackage == o.isPackage
      && r[i].isIntroOffer == o.isIntroOffer
      && r[i].isSingleSession == o.isSingleSession
  {
    if options.None? || |options.value| == 0 then []
    else
      var os := options.value;
      seq(|os|, i requires 0 <= i < |os| => BuildPricingOption(host, os[i]))
  }

  /** One session from one upstream class time. The class and location fall
      back to sentinel ids, the coach has no sentinel, web openings take
      precedence over general openings, and the 0/1 waitlist flag becomes a
      boolean. */
  function BuildSession(host: Host, item: ClassTime): (s: ScheduleSession)
    ensures s.id == item.id
    ensures item.relationships.course.Some? ==> s.classId == item.relationships.course.value
    ensures item.relationships.course.None? ==> s.classId == UnknownClass
    ensures s.coachId == item.relationships.staff
    ensures item.relationships.location.Some? ==> s.locationId == item.relationships.location.value
    ensures item.relationships.location.None? ==> s.locationId == UnknownLocation
    ensures item.attributes.webOpenings.Some? ==> s.openings == item.attributes.webOpenings.value
    ensures item.attributes.webOpenings.None? ==> s.openings == item.attributes.openings
    ensures s.waitlistAvailable <==> item.attributes.waitlistable != 0
    ensures s.start == item.attributes.startTime && s.end == item.attributes.endTime
    ensures s.durationMinutes == item.attributes.duration && s.capacity == item.attributes.capacity
    ensures s.pricingOptions == BuildPurchaseOptions(host, item.attributes.purchaseOptions)
  {
    var a := item.attributes;
    var rel := item.relationships;
    ScheduleSession(
      item.id,
      rel.course.GetOr(UnknownClass),
      rel.staff,
      rel.location.GetOr(UnknownLocation),
      a.startTime,
      a.endTime,
      a.duration,
      a.capacity,
      a.webOpenings.GetOr(a.openings),
      a.waitlistable != 0,
      BuildPurchaseOptions(host, a.purchaseOptions))
  }

  /** `buildSessions`: one session per class time, in order. */
  function BuildSessions(host: Host, data: seq<ClassTime>): (r: seq<ScheduleSession>)
    ensures |r| == |data|
    ensures forall i :: 0 <= i < |data| ==> r[i] == BuildSession(host, data[i]) && r[i].id == data[i].id
  {
    seq(|data|, i requires 0 <= i < |data| => BuildSession(host, data[i]))
  }

  // ---------------------------------------------------------------------
  // Entities

  /** A class carries the record's id and its attributes as they are: the
      name has no default, and the optional texts stay absent when absent. */
  function BuildClass(id: string, a: CourseAttributes): (c: ScheduleClass)
    ensures c.id == id && c.name == a.name
    ensures c.slug == a.slug && c.category == a.category
    ensures c.subcategory == a.subcategory && c.description == a.description
  {
    ScheduleClass(id, a.name, a.slug, a.category, a.subcategory, a.description)
  }

  /** The coach-name split: with no space there is neither a first nor a last
      name; otherwise the first name is the text before the first space and
      the last name the text after it, absent when that text is empty. */
  function SplitDisplayName(name: string): (r: (Option<string>, Option<string>))
    ensures ' ' !in name ==> r == (None, None)
    ensures ' ' in name ==>
      var i := IndexOf(name, ' ').value;
      && r.0 == Some(name[..i])
      && r.1 == (if name[i + 1..] == [] then None else Some(name[i + 1..]))
  {
    if ' ' !in name then (None, None)
    else
      var parts := Split(name, ' ');
      var rest := Join(parts[1..], ' ');
      SplitAtFirst(name, ' ');
      JoinSplit(name[IndexOf(name, ' ').value + 1..], ' ');
      (Some(parts[0]), if rest == [] then None else Some(rest))
  }

  /** A coach is shown under the upstream name, or under "Coach" when the
      name is null or absent, with first and last names split from it. */
  function BuildCoach(id: string, a: StaffAttributes): (c: ScheduleCoach)
    ensures a.name.Some? ==> c.displayName == a.name.value
    ensures a.name.None? ==> c.displayName == DefaultCoachName
    ensures (c.firstName, c.lastName) == SplitDisplayName(c.displayName)
    ensures c.id == id && c.imageUrl.None?
  {
    var displayName := a.name.GetOr(DefaultCoachName);
    var (firstName, lastName) := SplitDisplayName(displayName);
    ScheduleCoach(id, displayName, firstName, lastName, None)
  }

  /** A location is shown under the upstream name, or under "Location" when
      the name is null or absent; the address and phone texts are carried
      over, and the coordinates are the ones parsed from the `latLon` text. */
  function BuildLocation(host: Host, id: string, a: LocationAttributes): (l: ScheduleLocation)
    ensures l.id == id
    ensures a.name.Some? ==> l.name == a.name.value
    ensures a.name.None? ==> l.name == DefaultLocationName
    ensures (l.latitude, l.longitude) ==
      (ParseLatLon(host, a.latLon).latitude, ParseLatLon(host, a.latLon).longitude)
    ensures l.addressLine1 == a.address && l.addressLine2 == a.address2
    ensures l.city == a.city && l.state == a.state
    ensures l.postalCode == a.postalCode && l.phone == a.phone
  {
    var latLon := ParseLatLon(host, a.latLon);
    ScheduleLocation(
      id,
      a.name.GetOr(DefaultLocationName),
      a.address,
      a.address2,
      a.city,
      a.state,
      a.postalCode,
      latLon.latitude,
      latLon.longitude,
      a.phone)
  }

  /** One iteration of `normalizeIncluded`'s `forEach`: for a course, staff or
      location record, reuse the cached entity of that id or build a new
      one, store it in the cache and publish it in this response's table;
      records of any other type change nothing. Returns `(caches, lookups)`.
      A cached entity is kept as it is; a missing one is built from the
      record; either way the lookup table publishes what the cache now
      holds, and the tables of the other kinds do not change. */
  function NormalizeItem(host: Host, item: Included, caches: EntityTables, out: EntityTables)
    : (r: (EntityTables, EntityTables))
    ensures item.Unrecognized? ==> r == (caches, out)
    ensures item.Course? ==>
      var id := item.id;
      && r.0 == caches.(classes := r.0.classes) && r.1 == out.(classes := r.1.classes)
      && id in r.0.classes && r.0.classes == caches.classes[id := r.0.classes[id]]
      && r.1.classes == out.classes[id := r.0.classes[id]]
      && (id in caches.classes ==> r.0.classes == caches.classes)
      && (id !in caches.classes ==> r.0.classes[id] == BuildClass(id, item.course))
    ensures item.Staff? ==>
      var id := item.id;
      && r.0 == caches.(coaches := r.0.coaches) && r.1 == out.(coaches := r.1.coaches)
      && id in r.0.coaches && r.0.coaches == caches.coaches[id := r.0.coaches[id]]
      && r.1.coaches == out.coaches[id := r.0.coaches[id]]
      && (id in caches.coaches ==> r.0.coaches == caches.coaches)
      && (id !in caches.coaches ==> r.0.coaches[id] == BuildCoach(id, item.staff))
    ensures item.Location? ==>
      var id := item.id;
      && r.0 == caches.(locations := r.0.locations) && r.1 == out.(locations := r.1.locations)
      && id in r.0.locations && r.0.locations == caches.locations[id := r.0.locations[id]]
      && r.1.locations == out.locations[id := r.0.locations[id]]
      && (id in caches.locations ==> r.0.locations == caches.locations)
      && (id !in caches.locations ==> r.0.locations[id] == BuildLocation(host, id, item.location))
  {
    match item
    case Course(id, a) =>
      var value := if id in caches.classes then caches.classes[id] else BuildClass(id, a);
      (caches.(classes := caches.classes[id := value]), out.(classes := out.classes[id := value]))
    case Staff(id, a) =>
      var value := if id in caches.coaches then caches.coaches[id] else BuildCoach(id, a);
      (caches.(coaches := caches.coaches[id := value]), out.(coaches := out.coaches[id := value]))
    case Location(id, a) =>
      var value := if id in caches.locations then caches.locations[id] else BuildLocation(host, id, a);
      (caches.(locations := caches.locations[id := value]), out.(locations := out.locations[id := value]))
    case Unrecognized(_, _) =>
      (caches, out)
  }

  /** The `forEach` over the included records, left to right. Each kind's
      pair of tables evolves as the generic cache step run over that kind's
      records alone: the kinds never share a table. */
  function NormalizeItems(host: Host, items: seq<Included>, caches: EntityTables, out: EntityTables)
    : (r: (EntityTables, EntityTables))
    ensures (r.0.classes, r.1.classes) ==
      EntityCache.Absorb(EntityCache.Entries(items, PickClass), caches.classes, out.classes)
    ensures (r.0.coaches, r.1.coaches) ==
      EntityCache.Absorb(EntityCache.Entries(items, PickCoach), caches.coaches, out.coaches)
    ensures (r.0.locations, r.1.locations) ==
      EntityCache.Absorb(EntityCache.Entries(items, (i: Included) => PickLocation(host, i)), caches.locations, out.locations)
    decreases |items|
  {
    if |items| == 0 then (caches, out)
    else
      var (caches', out') := NormalizeItem(host, items[0], caches, out);
      var pl := (i: Included) => PickLocation(host, i);
      ItemStep(host, items[0], caches, out);
      EntityCache.EntriesCons(items, PickClass);
      EntityCache.EntriesCons(items, PickCoach);
      EntityCache.EntriesCons(items, pl);
      EntityCache.AbsorbAppend(EntityCache.Picked(items[0], PickClass), EntityCache.Entries(items[1..], PickClass),
        caches.classes, out.classes);
      EntityCache.AbsorbAppend(EntityCache.Picked(items[0], PickCoach), EntityCache.Entries(items[1..], PickCoach),
        caches.coaches, out.coaches);
      EntityCache.AbsorbAppend(EntityCache.Picked(items[0], pl), EntityCache.Entries(items[1..], pl),
        caches.locations, out.locations);
      NormalizeItems(host, items[1..], caches', out')
  }

  function PickClass(item: Included): Option<(string, ScheduleClass)> {
    if item.Course? then Some((item.id, BuildClass(item.id, item.course))) else None
  }

  function PickCoach(item: Included): Option<(string, ScheduleCoach)> {
    if item.Staff? then Some((item.id, BuildCoach(item.id, item.staff))) else None
  }

  function PickLocation(host: Host, item: Included): Option<(string, ScheduleLocation)> {
    if item.Location? then Some((item.id, BuildLocation(host, item.id, item.location))) else None
  }

  /** The ids of the course, staff and location records. */
  function CourseIds(items: seq<Included>): set<string> {
    set k | 0 <= k < |items| && items[k].Course? :: items[k].id
  }

  function StaffIds(items: seq<Included>): set<string> {
    set k | 0 <= k < |items| && items[k].Staff? :: items[k].id
  }

  function LocationIds(items: seq<Included>): set<string> {
    set k | 0 <= k < |items| && items[k].Location? :: items[k].id
  }

  /** One record moves each kind's pair of tables as the generic cache step
      moves them over the entry it yields for that kind, if any. */
  lemma ItemStep(host: Host, item: Included, caches: EntityTables, out: EntityTables)
    ensures var next := NormalizeItem(host, item, caches, out);
      && (next.0.classes, next.1.classes) ==
           EntityCache.Absorb(EntityCache.Picked(item, PickClass), caches.classes, out.classes)
      && (next.0.coaches, next.1.coaches) ==
           EntityCache.Absorb(EntityCache.Picked(item, PickCoach), caches.coaches, out.coaches)
      && (next.0.locations, next.1.locations) ==
           EntityCache.Absorb(EntityCache.Picked(item, (i: Included) => PickLocation(host, i)), caches.locations, out.locations)
  {
    var one := EntityCache.Picked(item, PickClass);
    if |one| > 0 {
      assert one[1..] == [];
    }
    var two := EntityCache.Picked(item, PickCoach);
    if |two| > 0 {
      assert two[1..] == [];
    }
    var three := EntityCache.Picked(item, (i: Included) => PickLocation(host, i));
    if |three| > 0 {
      assert three[1..] == [];
    }
  }

  /** The course records' part of `normalizeIncluded`. */
  lemma ClassTables(host: Host, items: seq<Included>, caches: EntityTables)
    ensures var (c, o) := NormalizeItems(host, items, caches, NoEntities);
      && o.classes.Keys == CourseIds(items)
      && c.classes.Keys == caches.classes.Keys + CourseIds(items)
      && (forall id :: id in o.classes ==> o.classes[id] == c.classes[id])
      && (forall id :: id in caches.classes ==> c.classes[id] == caches.classes[id])
      && (forall id :: id in CourseIds(items) && id !in caches.classes ==>
            EntityCache.FirstBuilt(EntityCache.Entries(items, PickClass), id) == Some(c.classes[id]))
  {
    EntityCache.AbsorbPicked(items, PickClass, caches.classes);
    assert EntityCache.PickedIds(items, PickClass) == CourseIds(items);
  }

  /** The staff records' part of `normalizeIncluded`. */
  lemma CoachTables(host: Host, items: seq<Included>, caches: EntityTables)
    ensures var (c, o) := NormalizeItems(host, items, caches, NoEntities);
      && o.coaches.Keys == StaffIds(items)
      && c.coaches.Keys == caches.coaches.Keys + StaffIds(items)
      && (forall id :: id in o.coaches ==> o.coaches[id] == c.coaches[id])
      && (forall id :: id in caches.coaches ==> c.coaches[id] == caches.coaches[id])
      && (forall id :: id in StaffIds(items) && id !in caches.coaches ==>
            EntityCache.FirstBuilt(EntityCache.Entries(items, PickCoach), id) == Some(c.coaches[id]))
  {
    EntityCache.AbsorbPicked(items, PickCoach, caches.coaches);
    assert EntityCache.PickedIds(items, PickCoach) == StaffIds(items);
  }

  /** The location records' part of `normalizeIncluded`. */
  lemma LocationTables(host: Host, items: seq<Included>, caches: EntityTables)
    ensures var (c, o) := NormalizeItems(host, items, caches, NoEntities);
      && o.locations.Keys == LocationIds(items)
      && c.locations.Keys == caches.locations.Keys + LocationIds(items)
      && (forall id :: id in o.locations ==> o.locations[id] == c.locations[id])
      && (forall id :: id in caches.locations ==> c.locations[id] == caches.locations[id])
      && (forall id :: id in LocationIds(items) && id !in caches.locations ==>
            EntityCache.FirstBuilt(EntityCache.Entries(items, (i: Included) => PickLocation(host, i)), id) ==
              Some(c.locations[id]))
  {
    var pl := (i: Included) => PickLocation(host, i);
    EntityCache.AbsorbPicked(items, pl, caches.locations);
    assert EntityCache.PickedIds(items, pl) == LocationIds(items);
  }

  /** `normalizeIncluded`: returns this response's lookup tables and the
      updated caches.

      Every course, staff and location id becomes a key of the matching
      lookup table and no other key appears; each published entity is the
      one now cached under its id; ids cached before keep their cached
      entity (a stale entity masks newer upstream data); a newly seen id is
      cached with the entity built from its first record, so a repeated id
      within one array keeps its first value. Absent `included` changes
      nothing. */
  function NormalizeIncluded(host: Host, included: Option<seq<Included>>, caches: EntityTables)
    : (r: (EntityTables, EntityTables))
    ensures var items := included.GetOr([]);
      var (lookups, caches') := r;
      && lookups.classes.Keys == CourseIds(items)
      && lookups.coaches.Keys == StaffIds(items)
      && lookups.locations.Keys == LocationIds(items)
      && caches'.classes.Keys == caches.classes.Keys + CourseIds(items)
      && caches'.coaches.Keys == caches.coaches.Keys + StaffIds(items)
      && caches'.locations.Keys == caches.locations.Keys + LocationIds(items)
      && (forall id :: id in lookups.classes ==> lookups.classes[id] == caches'.classes[id])
      && (forall id :: id in lookups.coaches ==> lookups.coaches[id] == caches'.coaches[id])
      && (forall id :: id in lookups.locations ==> lookups.locations[id] == caches'.locations[id])
      && (forall id :: id in caches.classes ==> caches'.classes[id] == caches.classes[id])
      && (forall id :: id in caches.coaches ==> caches'.coaches[id] == caches.coaches[id])
      && (forall id :: id in caches.locations ==> caches'.locations[id] == caches.locations[id])
      && (forall id :: id in CourseIds(items) && id !in caches.classes ==>
            EntityCache.FirstBuilt(EntityCache.Entries(items, PickClass), id) == Some(caches'.classes[id]))
      && (forall id :: id in StaffIds(items) && id !in caches.coaches ==>
            EntityCache.FirstBuilt(EntityCache.Entries(items, PickCoach), id) == Some(caches'.coaches[id]))
      && (forall id :: id in LocationIds(items) && id !in caches.locations ==>
            EntityCache.FirstBuilt(EntityCache.Entries(items, (i: Included) => PickLocation(host, i)), id) ==
              Some(caches'.locations[id]))
  {
    var items := included.GetOr([]);
    var (caches', lookups) := NormalizeItems(host, items, caches, NoEntities);
    ClassTables(host, items, caches);
    CoachTables(host, items, caches);
    LocationTables(host, items, caches);
    (lookups, caches')
  }

  /** `normalizePayload`: the success envelope. `generatedAt` is the clock
      reading taken while assembling it. */
  function NormalizePayload(host: Host, response: ListResponse, params: ScheduleQueryParams,
                            caches: EntityTables, generatedAt: int)
    : (r: (SchedulePayload, EntityTables))
    ensures var (p, caches') := r;
      && !p.fallback
      && p.params == params
      && p.generatedAt == host.toIsoString(generatedAt)
      && p.sessions == BuildSessions(host, response.data)
      && p.classes == NormalizeIncluded(host, response.included, caches).0.classes
      && p.coaches == NormalizeIncluded(host, response.included, caches).0.coaches
      && p.locations == NormalizeIncluded(host, response.included, caches).0.locations
      && caches' == NormalizeIncluded(host, response.included, caches).1
  {
    var (lookups, caches') := NormalizeIncluded(host, response.included, caches);
    var payload := SchedulePayload(
      host.toIsoString(generatedAt),
      params,
      BuildSessions(host, response.data),
      lookups.classes,
      lookups.coaches,
      lookups.locations,
      false);
    (payload, caches')
  }

  /** Every relation of every class time names a record of the matching kind
      among the included records. */
  predicate RelationsIncluded(response: ListResponse) {
    var items := response.included.GetOr([]);
    forall i :: 0 <= i < |response.data| ==>
      var rel := response.data[i].relationships;
      && (rel.course.Some? ==> rel.course.value in CourseIds(items))
      && (rel.staff.Some? ==> rel.staff.value in StaffIds(items))
      && (rel.location.Some? ==> rel.location.value in LocationIds(items))
  }

  /** When the upstream response is self-contained, every session of the
      payload resolves in its lookup tables: its class and location are keys
      of `classes` and `locations` unless the relation was missing (then the
      sentinel stands in), and a coach id, when present, is a key of
      `coaches`. */
  lemma SessionsResolve(host: Host, response: ListResponse, params: ScheduleQueryParams,
                        caches: EntityTables, generatedAt: int)
    requires RelationsIncluded(response)
    ensures var p := NormalizePayload(host, response, params, caches, generatedAt).0;
      forall i :: 0 <= i < |p.sessions| ==>
        var s := p.sessions[i];
        var rel := response.data[i].relationships;
        && (s.classId in p.classes || (rel.course.None? && s.classId == UnknownClass))
        && (s.coachId.Some? ==> s.coachId.value in p.coaches)
        && (s.locationId in p.locations || (rel.location.None? && s.locationId == UnknownLocation))
  {
  }
}
