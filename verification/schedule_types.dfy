/** The normalized shapes the proxy returns (site/src/types/schedule.ts).
    An optional field or a `number | null` is an `Option`; JavaScript
    numbers read from price and coordinate strings are `real`s; a
    `Record<string, T>` is a `map<string, T>`. */
module ScheduleTypes {
  import opened Optional

  datatype ScheduleQueryParams = ScheduleQueryParams(
    from: string,
    to: string,
    programId: Option<string>,
    coachId: Option<string>)

  datatype PricingOption = PricingOption(
    id: string,
    name: string,
    retail: Option<real>,
    online: Option<real>,
    isPackage: bool,
    isIntroOffer: bool,
    isSingleSession: bool)

  datatype ScheduleSession = ScheduleSession(
    id: string,
    classId: string,
    coachId: Option<string>,
    locationId: string,
    start: string,
    end: string,
    durationMinutes: int,
    capacity: int,
    openings: int,
    waitlistAvailable: bool,
    pricingOptions: seq<PricingOption>)

  datatype ScheduleClass = ScheduleClass(
    id: string,
    name: string,
    slug: Option<string>,
    category: Option<string>,
    subcategory: Option<string>,
    description: Option<string>)

  datatype ScheduleCoach = ScheduleCoach(
    id: string,
    displayName: string,
    firstName: Option<string>,
    lastName: Option<string>,
    imageUrl: Option<string>)

  datatype ScheduleLocation = ScheduleLocation(
    id: string,
    name: string,
    addressLine1: Option<string>,
    addressLine2: Option<string>,
    city: Option<string>,
    state: Option<string>,
    postalCode: Option<string>,
    latitude: Option<real>,
    longitude: Option<real>,
    phone: Option<string>)

  /** The three id-keyed entity tables. The same shape serves both for the
      lookup tables of one response and for the process-wide caches. */
  datatype EntityTables = EntityTables(
    classes: map<string, ScheduleClass>,
    coaches: map<string, ScheduleCoach>,
    locations: map<string, ScheduleLocation>)

  const NoEntities := EntityTables(map[], map[], map[])

  datatype SchedulePayload = SchedulePayload(
    generatedAt: string,
    params: ScheduleQueryParams,
    sessions: seq<ScheduleSession>,
    classes: map<string, ScheduleClass>,
    coaches: map<string, ScheduleCoach>,
    locations: map<string, ScheduleLocation>,
    fallback: bool)
}
