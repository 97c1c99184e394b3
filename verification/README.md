# Schedule proxy and contact-form validation, modelled in Dafny

This project models two pieces of a gym's website.

The first is the **schedule proxy** `GET /api/schedule`
(`src/pages/api/schedule.ts`). It validates the requested date window and
rate-limits each client with a fixed-window counter. It then asks the
Mindbody class-times search for that window and normalizes the answer into
the site's own schedule payload. That payload has sessions plus class, coach
and location lookup tables, whose entities are cached for the life of the
process. When the upstream call fails it answers with a `fallback` flag so
the page can load the vendor widget instead.

The second is the **contact-form validator** (`src/utils/contactValidation.ts`).
It trims the submitted fields, applies one rule per field (name, email,
phone, message), and builds a record of error messages that is valid when
empty. The email rule is the source's regular expression, written out as an
explicit predicate. It is proved equal to the language of addresses built
from atoms, labels and a top-level domain.

Modules, one per file:

- `Optional` (`optional.dfy`): `Option` and `Result`.
- `JsString` (`js_string.dfy`): JavaScript `trim`, one-character `split`/`join`, `indexOf` and UTF-16 `length`.
- `JsHost` (`js_host.dfy`): the host built-ins the proxy calls, as parameters.
  These are `Number.parseFloat`, `new Date(text).getTime()` and `toISOString`.
- `Upstream` (`upstream.dfy`) and `ScheduleTypes` (`schedule_types.dfy`): the upstream records and the canonical payload.
- `EntityCache` (`entity_cache.dfy`): the cache-or-build step of the lookup tables, stated once for any entity type.
- `Normalize` (`normalize.dfy`): `sanitizeNumber`, `parseLatLon`, `buildPurchaseOptions`, `buildSessions`, `normalizeIncluded` and `normalizePayload`.
- `QueryParams` (`query_params.dfy`): `sanitizeParams`.
- `RateLimit` (`rate_limit.dfy`): `enforceRateLimit` and `extractClientIp`.
- `ScheduleProxy` (`proxy.dfy`): `GET`.
- `EmailPattern` (`email_pattern.dfy`) and `ContactValidation` (`contact_validation.dfy`): the contact-form rules.
- `ContactExamples` (`contact_examples.dfy`): the validator's unit-test scenarios as lemmas.

Process-wide state is an explicit value passed in and returned. This covers
the rate-bucket table and the three entity caches. The clock readings are
parameters, and so is the outcome of the single upstream call. Every
property holds for every behaviour of the host's number and date
built-ins. Where a property needs the date formatter and parser to agree,
it says so in its `requires`.

Two defaults of the code are worth stating plainly:

- A missing `to` defaults to the next UTC midnight after the current time, whatever `from` is.
  `QueryParams.MissingToIgnoresFrom` shows the consequence: an explicit `from` at or after that midnight is rejected.
- A coach's display name is split at the first ASCII space `' '` only; other whitespace does not split it.

## Model

| member | source | states |
|---|---|---|
| JsHost.FiniteValue | src/pages/api/schedule.ts:124 | `Number.isFinite` keeps exactly the finite parse results, with their value; NaN and the infinities are dropped |
| JsString.Trim | src/utils/contactValidation.ts:15 | the trimmed text has no whitespace at either end, is no longer than the input, and is empty exactly when the input is all whitespace |
| JsString.TrimUnique | src/utils/contactValidation.ts:15 | a slice between a blank prefix and a blank suffix that is itself trimmed is the trimmed text, so trimming has exactly one possible result |
| JsString.TrimSlice | src/utils/contactValidation.ts:15 | the trimmed text is a slice of the input between a blank prefix and a blank suffix |
| JsString.TrimIdempotent | src/utils/contactValidation.ts:21-24 | trimming an already trimmed text changes nothing |
| JsString.Split | src/pages/api/schedule.ts:342 | a one-character split gives at least one piece and no piece contains the separator (`SplitJoin` and `JoinSplit` make it the inverse of `Join`) |
| JsString.Join | src/pages/api/schedule.ts:178 | the pieces with the separator between consecutive ones, the empty array giving "" (`SplitJoin` and `JoinSplit` make it the inverse of `Split`) |
| JsString.SplitJoin | src/pages/api/schedule.ts:176-178 | splitting a join of separator-free pieces gives the pieces back |
| JsString.JoinSplit | src/pages/api/schedule.ts:176-178 | joining the pieces of a split gives the text back |
| JsString.Utf16Length | src/utils/contactValidation.ts:42 | the length is between the number of characters and twice it, and equals the number of characters when all lie in the Basic Multilingual Plane |
| Normalize.SanitizeNumber | src/pages/api/schedule.ts:121-125 | absent or empty text gives null; other text gives a value exactly when it parses finite, and that value is the parse result, so NaN never comes out |
| Normalize.ParseLatLon | src/pages/api/schedule.ts:127-128 | absent or empty text gives neither coordinate |
| Normalize.LatLonPair | src/pages/api/schedule.ts:129-133 | for `a,b[,…]` the latitude depends only on the trimmed `a` and the longitude only on the trimmed `b`, each present exactly when its own piece parses finite |
| Normalize.LatLonSingle | src/pages/api/schedule.ts:129-133 | text without a comma gives a latitude from the whole text and no longitude; a missing second piece is not a failure |
| Normalize.BuildPricingOption | src/pages/api/schedule.ts:138-146 | id, name and flags are carried over; without a pricing record both prices are null; with one, each price is its text sent through `sanitizeNumber` |
| Normalize.BuildPurchaseOptions | src/pages/api/schedule.ts:136-147 | null or empty options give `[]`; otherwise a one-to-one, order-preserving map keeping id, name and flags, with both prices sent through `sanitizeNumber` |
| Normalize.BuildSession | src/pages/api/schedule.ts:218-235 | the class and location ids fall back to their sentinels; the coach id has no sentinel; web openings win over openings; the waitlist flag is true iff `waitlistable` is non-zero |
| Normalize.BuildSessions | src/pages/api/schedule.ts:217-236 | one session per class time, same order, same id |
| Normalize.SplitDisplayName | src/pages/api/schedule.ts:173-179 | with no space there are neither first nor last names; otherwise the first name is the text before the first space and the last name the text after it, absent when empty |
| Normalize.BuildClass | src/pages/api/schedule.ts:156-165 | the class carries the record's id and its name, slug, category, subcategory and description unchanged; unlike coaches and locations, the name gets no default |
| Normalize.BuildCoach | src/pages/api/schedule.ts:171-187 | the display name is the upstream name, or "Coach" when absent; the first and last names are split from it; there is no image |
| Normalize.BuildLocation | src/pages/api/schedule.ts:193-208 | the name is the upstream name, or "Location" when absent; the coordinates are those `parseLatLon` reads from the `latLon` text; the address, city, state, postal code and phone are carried over |
| Normalize.ItemStep | src/pages/api/schedule.ts:154-212 | one included record moves each kind's cache and lookup table as the generic cache step over that record's entry of that kind |
| Normalize.NormalizeItem | src/pages/api/schedule.ts:155-211 | a course, staff or location record keeps the cached entity of its id, or builds and caches one when the id is new, and publishes the cached value under its id; the tables of the other kinds and records of other types change nothing |
| Normalize.NormalizeItems | src/pages/api/schedule.ts:154-212 | over the whole array, each kind's cache and lookup table evolve as the cache step run over that kind's records alone |
| Normalize.ClassTables | src/pages/api/schedule.ts:155-168 | class table keys are exactly the course ids; the cache gains them; published values are the cached ones; old cache entries are kept; a new id is cached from its first record |
| Normalize.CoachTables | src/pages/api/schedule.ts:170-190 | the same facts for staff records and the coach cache |
| Normalize.LocationTables | src/pages/api/schedule.ts:192-211 | the same facts for location records and the location cache |
| Normalize.NormalizeIncluded | src/pages/api/schedule.ts:149-215 | each lookup table holds exactly the ids of its kind; every such id ends up cached; a cache hit returns the earlier entity unchanged, and a repeated id keeps its first-built value |
| Normalize.NormalizePayload | src/pages/api/schedule.ts:238-260 | the payload is not a fallback, echoes the params, stamps the clock reading, carries the built sessions and the three lookup tables, and returns the updated caches |
| Normalize.SessionsResolve | src/pages/api/schedule.ts:217-260 | when every relation names an included record, each session's class, coach and location id is a key of its lookup table, unless a missing relation left a sentinel |
| EntityCache.Absorb | src/pages/api/schedule.ts:156-167 | the cache-or-build step over a run of records, in order: a cached id reuses its entity, a new one takes the freshly built entity, and the chosen value is written to the cache and published (`AbsorbCaches` states the result) |
| EntityCache.AbsorbCaches | src/pages/api/schedule.ts:156-167 | the cache step keeps every old cache entry, adds each new id with the entity built from its first entry, and publishes every id with the value now cached |
| EntityCache.AbsorbAppend | src/pages/api/schedule.ts:154 | running the cache step over two runs of records in turn equals running it over both joined, which is what makes the `forEach` a fold |
| EntityCache.AbsorbPicked | src/pages/api/schedule.ts:149-167 | from an empty table, the published keys are exactly the selected ids, each with its cached value; old entries are kept and new ids are built from their first record |
| QueryParams.QueryGet | src/pages/api/schedule.ts:265-267 | a parameter is absent exactly when no pair has its name; otherwise the value is that of the first pair with the name |
| QueryParams.FromText | src/pages/api/schedule.ts:265 | a given `from` is used as it is, even when empty; without one it is the ISO text of the UTC midnight at or before now, less than a day before it |
| QueryParams.ToText | src/pages/api/schedule.ts:266-267 | a given `to` is used as it is, even when empty; without one it is the ISO text of the UTC midnight after now, at most a day after it |
| QueryParams.UtcDayStart | src/pages/api/schedule.ts:263-264 | the default start is a UTC midnight at or before now, less than a day before it |
| QueryParams.NonEmpty | src/pages/api/schedule.ts:300-301 | an empty or absent id is dropped and a non-empty one is passed through |
| QueryParams.ParamError.Message | src/pages/api/schedule.ts:271-291 | the `error` text of each 400 answer: "Invalid date range supplied.", "`to` must be later than `from`." and "Date range cannot exceed 14 days." |
| QueryParams.CheckWindow | src/pages/api/schedule.ts:272-292 | unparseable bounds, then `to <= from`, then a span over 14 days are rejected, in that order; on success `from < to <= from + 14 days` |
| QueryParams.SanitizeParams | src/pages/api/schedule.ts:262-303 | each error happens exactly in its case; on success the window is increasing, at most 14 days long, and written as the host's ISO texts, and the empty ids are dropped |
| QueryParams.EchoReadsBack | src/pages/api/schedule.ts:294-301 | reading the query built from sanitized parameters gives back every parameter |
| QueryParams.SanitizeIdempotent | src/pages/api/schedule.ts:262-303 | when the host's ISO texts parse back, sanitizing the sanitized parameters again, at any time, returns them unchanged |
| QueryParams.DefaultWindow | src/pages/api/schedule.ts:263-267 | with neither bound given the window is the current UTC day, from its midnight to the next |
| QueryParams.MissingToIgnoresFrom | src/pages/api/schedule.ts:266-267 | an absent `to` is the next UTC midnight whatever `from` is, so a `from` at or after it fails with the `to`-not-later error |
| RateLimit.EnforceRateLimit | src/pages/api/schedule.ts:305-321 | no bucket or an expired one opens a 60 s window with count 1 and admits; a full window refuses and changes nothing; otherwise the count goes up and it admits; other buckets are untouched and counts stay within 1..30 |
| RateLimit.Serve | src/pages/api/schedule.ts:305-321 | a run of requests from one identity gives one decision per request and never touches another identity's bucket |
| RateLimit.WithinWindow | src/pages/api/schedule.ts:309-320 | inside one window the k-th further request is admitted iff the count plus k is below 30, so a window never admits more than 30 |
| RateLimit.FreshWindow | src/pages/api/schedule.ts:305-321 | a burst within 60 s of a fresh window's first request admits exactly the first 30 requests |
| RateLimit.OtherIdentityAdmitted | src/pages/api/schedule.ts:307-311 | a burst from one identity never stops a new identity from being admitted |
| RateLimit.FirstNonEmpty | src/pages/api/schedule.ts:342-345 | the choice is the first non-empty candidate, every earlier one being empty, or the fallback when every candidate is empty; so it is non-empty when the fallback is |
| RateLimit.ForwardedClient | src/pages/api/schedule.ts:342 | no forwarded-for header gives ""; otherwise the trimmed text before its first comma, or the whole header trimmed when it has no comma |
| RateLimit.ExtractClientIp | src/pages/api/schedule.ts:341-345 | the identity is the first non-empty of the trimmed first forwarded-for entry, the real-ip header and the connecting-ip header, else "anonymous"; it is never empty |
| RateLimit.ForwardedFirstEntry | src/pages/api/schedule.ts:342 | only the trimmed text before the first comma of the forwarded-for header is used |
| ScheduleProxy.Settle | src/pages/api/schedule.ts:400-429 | a body that decodes answers 200 with exactly the payload `normalizePayload` builds and the caches it leaves; one that does not decode answers 503 with the caches as they were; one whose normalization threw answers 503 keeping the cache entries absorbed before the throw; every 503 is a fallback with the request-failed message |
| ScheduleProxy.Forward | src/pages/api/schedule.ts:377-429 | 503 with `fallback` iff the upstream call threw, answered non-OK or gave no usable body, else 200; a thrown call and a non-OK status keep the caches and carry their own messages; a 2xx response is settled by its body |
| ScheduleProxy.Get | src/pages/api/schedule.ts:349-430 | 400 iff the params fail, and then nothing changes; 429 iff the limiter refuses, with the too-many-requests error body, and then nothing changes; 503 with `fallback` iff an admitted request's upstream call gave no usable body; a 200 carries exactly the normalized payload and keeps the caches normalization leaves; a 503 after a partial normalization keeps the entries absorbed; every other answer leaves the caches alone; only a request past validation moves the rate buckets |
| ScheduleProxy.CourseCachedDespiteFailure | src/pages/api/schedule.ts:154-167 | a 2xx body whose new course record is absorbed before normalization throws answers 503 with `fallback`, yet the course stays cached, built from that record (the `catch` at lines 415-429 does not undo lines 166-167) |
| EmailPattern.Matches | src/utils/contactValidation.ts:10-11 | a text matches exactly when the text before its first "@" is a local part and the text after it a domain |
| EmailPattern.ComposedMatches | src/utils/contactValidation.ts:10-11 | every address built from atoms, labels and a tld of two or more letters matches the pattern |
| EmailPattern.MatchDecomposes | src/utils/contactValidation.ts:10-11 | every matching text is such an address, so the predicate is exactly the pattern's language |
| EmailPattern.LocalPartOf | src/utils/contactValidation.ts:11 | dot-joined atoms contain no "@" and pass the local-part test |
| EmailPattern.DomainOf | src/utils/contactValidation.ts:11 | dot-joined labels followed by a tld pass the domain test |
| ContactValidation.SanitizeValue | src/utils/contactValidation.ts:14-16 | a text entry is returned as its own text trimmed; a file or a missing entry gives ""; the result is empty exactly when there was no text or only whitespace, and sanitizing again changes nothing |
| ContactValidation.PhoneMatches | src/utils/contactValidation.ts:12 | seven or more characters, each one of `+()-.`, whitespace or a digit; every such character is one UTF-16 unit, so `{7,}` counts characters |
| ContactValidation.NameError | src/utils/contactValidation.ts:21-28 | the name fails, with "Please enter your name.", exactly when it is blank |
| ContactValidation.EmailError | src/utils/contactValidation.ts:22-34 | a blank email gets the required message; a non-blank failing one gets the invalid message; it passes exactly when its trimmed text matches the pattern |
| ContactValidation.PhoneError | src/utils/contactValidation.ts:12 | an absent or blank phone passes; otherwise it fails, with the phone message, exactly when its trimmed text is not 7 or more of `+()-.`, whitespace and digits (lines 23 and 36-38) |
| ContactValidation.MessageError | src/utils/contactValidation.ts:24-44 | a blank message gets the required message; a non-blank failing one gets the too-short message; it passes exactly when the trimmed text is at least 10 UTF-16 units long |
| ContactValidation.NoteAllFields | src/utils/contactValidation.ts:19-46 | the record built from the four outcomes has a field exactly when its rule failed, with that rule's message, and no other keys |
| ContactValidation.ValidateContactForm | src/utils/contactValidation.ts:18-47 | keys are only the four fields; each field is present exactly when its rule fails and carries that rule's message |
| ContactValidation.FieldEntry | src/utils/contactValidation.ts:18-47 | for any field, its entry in the record is its own rule's outcome |
| ContactValidation.IsValid | src/utils/contactValidation.ts:49-51 | valid exactly when the record has no keys |
| ContactValidation.ValidIffAcceptable | src/utils/contactValidation.ts:18-51 | a submission is valid exactly when the name is not blank, the trimmed email matches, the phone is absent, blank or matches, and the trimmed message has 10 or more units |
| ContactValidation.FieldLocality | src/utils/contactValidation.ts:18-47 | changing other fields leaves a field's entry as it was |
| ContactValidation.RulesSeeTrimmedText | src/utils/contactValidation.ts:21-24 | each rule depends only on the trimmed text of its field |
| ContactValidation.SameOutcomesSameRecord | src/utils/contactValidation.ts:18-47 | two submissions whose rules end alike get the same record |
| ContactValidation.SanitizedFieldAlike | src/utils/contactValidation.ts:14-24 | each rule judges a sanitized field as it judges the raw one |
| ContactValidation.SanitizedValidatesAlike | src/utils/contactValidation.ts:14-47 | validating sanitized values gives the same record as validating the raw ones |
| ContactExamples.SampleEmailMatches | tests/unit/contact-validation.test.ts:10-16 | the sample address `taylor@example.com` matches the email pattern |
| ContactExamples.SampleNameAccepted | tests/unit/contact-validation.test.ts:10-16 | the sample name passes |
| ContactExamples.SampleEmailAccepted | tests/unit/contact-validation.test.ts:10-16 | the sample email passes |
| ContactExamples.SamplePhoneAccepted | tests/unit/contact-validation.test.ts:10-16 | the sample phone passes |
| ContactExamples.SampleMessageAccepted | tests/unit/contact-validation.test.ts:10-16 | the sample message passes |
| ContactExamples.SampleIsValid | tests/unit/contact-validation.test.ts:19-24 | the sample submission yields the empty record |
| ContactExamples.ShortMessageReported | src/utils/contactValidation.ts:42-43 | a trimmed, non-empty message under 10 units gets the too-short message |
| ContactExamples.MissingFieldsReported | tests/unit/contact-validation.test.ts:26-35 | blank name and email and a short message are reported with their messages, the blank phone is not, and the record is not valid |
| ContactExamples.MalformedEmailReported | src/utils/contactValidation.ts:32-33 | a trimmed, non-empty email without "@" gets the invalid-email message |
| ContactExamples.MalformedPhoneReported | src/utils/contactValidation.ts:36-37 | a trimmed, non-empty phone that does not match gets the phone message |
| ContactExamples.InvalidEmailReported | tests/unit/contact-validation.test.ts:37-42 | "invalid-email" gets the invalid-email message |
| ContactExamples.InvalidPhoneReported | tests/unit/contact-validation.test.ts:37-43 | "abc" gets the phone message |
| ContactExamples.EmptyPhoneIgnored | tests/unit/contact-validation.test.ts:46-51 | an empty phone adds no error and keeps the sample valid |
| ContactExamples.SanitizeSamples | tests/unit/contact-validation.test.ts:54-56 | sanitizing "   hello  " gives "hello" |
| ContactExamples.SanitizeMissing | tests/unit/contact-validation.test.ts:57-58 | sanitizing `null` or `undefined`, a missing entry, gives "" |

## Left out

- Network and I/O are not modelled: `fetch`, `response.json()`, the JSON encoding of responses, the `Content-Type` and `Cache-Control` headers, the logger and `crypto.randomUUID`.
  The upstream call is an input value (`ScheduleProxy.UpstreamOutcome`).
  A 2xx body is one of three inputs: it decodes and normalizes; `response.json()` throws; or `normalizePayload` throws part-way.
  The last two answer 503, as the `catch` at src/pages/api/schedule.ts:415-429 does.
  When `normalizePayload` throws, the `forEach` of `normalizeIncluded` (lines 154-212) may already have written some records to the caches.
  Which records were absorbed depends on where the malformed JSON sits, so the input names them (`ThrewWhileNormalizing`).
- `buildMindbodyPayload` (src/pages/api/schedule.ts:323-339) is a constant request template that only echoes `from`/`to`. It carries no logic.
- The catch-all 400 "Invalid request parameters." (src/pages/api/schedule.ts:362-366) is not modelled.
  `sanitizeParams` throws nothing but its three 400 responses, so that branch is unreachable.
- The host built-ins are parameters. Their internals are not modelled: `Number.parseFloat`, `new Date(text)` and `toISOString` in binary64 arithmetic.
  This is why the test fixtures `"150.0000"` → 150 and `"not-a-number"` → null are not restated.
- URL parsing is not modelled: `new URL(request.url).searchParams` (src/pages/api/schedule.ts:350) is taken as already done.
  The query is the list of its percent-decoded `name=value` pairs, in order (`QueryParams.Query`).
- The wall clock is not modelled: the three readings that affect the answer are parameters.
  The two other readings (src/pages/api/schedule.ts:353 and 404) only feed the logged duration and are not modelled.
- JavaScript numbers in the upstream class times are modelled as integers: `duration`, `openings`, `webOpenings`, `capacity` and `waitlistable`.
  A fractional value, NaN or an infinity in those fields is not modelled. `Boolean(waitlistable)` is modelled as "non-zero", which matches JavaScript for every integer; a non-number value of that field is not modelled.
  The purchase-option flags are modelled as booleans, so `Boolean(...)` of a non-boolean value is not modelled either.
- Concurrent requests sharing the module-level maps are not modelled. A single sequential caller threads the state.
- JavaScript object-key quirks (`__proto__` as an id) are not modelled. Lookup tables are maps from id to entity.
- The rate-bucket table never forgets an identity, in the source as in the model. No eviction is modelled.
- Normalize.ParseLatLon: its own contract covers only absent or empty text. The behaviour on other text is stated by the lemmas `LatLonPair` and `LatLonSingle`, which cover one, two or more comma-separated pieces.
- `src/pages/api/contact.ts` is not part of this model: it reads the form data and relays the submission.
