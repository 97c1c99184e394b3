/** The booking provider's list response as the proxy reads it
    (src/pages/api/schedule.ts, the `Mindbody*` types). An optional or
    nullable upstream field is an `Option`: the proxy treats absent and
    `null` alike everywhere (through `??` and optional chaining). */
module Upstream {
  import opened Optional

  datatype Pricing = Pricing(retail: Option<string>, online: Option<string>)

  datatype PurchaseOption = PurchaseOption(
    id: string,
    name: string,
    isPackage: bool,
    isIntroOffer: bool,
    isSingleSession: bool,
    pricing: Option<Pricing>)

  /** `relationships.<kind>?.data?.id`: the related record's id, if any. */
  datatype Relationships = Relationships(
    course: Option<string>,
    location: Option<string>,
    staff: Option<string>)

  /** Attributes of one bookable time slot. `waitlistable` is the provider's
      0/1 flag; the counts are passed through untouched. */
  datatype ClassTimeAttributes = ClassTimeAttributes(
    category: Option<string>,
    subcategory: Option<string>,
    waitlistable: int,
    duration: int,
    openings: int,
    webOpenings: Option<int>,
    capacity: int,
    startTime: string,
    endTime: string,
    purchaseOptions: Option<seq<PurchaseOption>>)

  datatype ClassTime = ClassTime(
    id: string,
    attributes: ClassTimeAttributes,
    relationships: Relationships)

  datatype CourseAttributes = CourseAttributes(
    name: string,
    description: Option<string>,
    category: Option<string>,
    subcategory: Option<string>,
    slug: Option<string>)

  datatype StaffAttributes = StaffAttributes(
    name: Option<string>,
    identitySlug: Option<string>)

  datatype LocationAttributes = LocationAttributes(
    name: Option<string>,
    address: Option<string>,
    address2: Option<string>,
    city: Option<string>,
    state: Option<string>,
    postalCode: Option<string>,
    phone: Option<string>,
    latLon: Option<string>)

  /** One record of the `included` array, tagged by its `type`. A record of
      any other type is kept as `Unrecognized` so that ignoring it is
      part of the model. */
  datatype Included =
    | Course(id: string, course: CourseAttributes)
    | Staff(id: string, staff: StaffAttributes)
    | Location(id: string, location: LocationAttributes)
    | Unrecognized(id: string, kind: string)

  datatype ListResponse = ListResponse(
    data: seq<ClassTime>,
    included: Option<seq<Included>>)
}
