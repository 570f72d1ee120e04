# Citizen lookup and registration — a Dafny model

This project models the core of the citizen service (api-service-citizen): the
lookups of citizen records by person id and by personal number, their batch
variants, the registration of a new person, and the address "changed since"
query with the filter predicates it is built from.

- `common.dfy` — `Wrappers.Option` (a nullable Java reference) and `Problems`
  (the NOT_FOUND / BAD_REQUEST / CONFLICT problems the service throws, and a
  `Result` that carries either a value or the thrown problem).
- `entities.dfy` — `Entities`: the citizen record (person id, personal number,
  classification marker, last-update instant), the address record (owner id and
  the four filterable columns), the per-entry batch answer, Java's
  `String.isBlank`, and the store invariants (records stored under their own
  id, personal numbers unique).
- `citizen_address_specification.dfy` — `CitizenAddressSpecification`: the
  "changed since" predicate and the equality filters, as tests of one row.
- `citizen_address_service.dfy` — `CitizenAddressService`: the repository query
  (`FindAll`, the accepted rows in table order) followed by the opaque mapping.
- `citizen_service.dfy` — `Service.CitizenService`: a class whose fields are
  the citizen table (`map` from person id to record) and the address table
  (`seq`). The read operations are functions that read these fields. They cannot
  change them, so every read leaves the store unchanged. `CreatePerson` is the
  one method, and it `modifies` the service.

Collaborators whose code is outside the model are parameters:
- the two mappers (`toCitizenExtended`, `toSummary`);
- the Party lookup (`party(personNumber, municipalityId, type)`, which returns
  an `Option<string>`, since the Party integration turns every failure into null);
- the exceptions the processing of each batch entry may throw (`failures`,
  one exception message or none per input position). Whether a datastore
  error or an open circuit breaker strikes depends on when the lookup runs,
  not on the personal number, so the same number twice in a batch may fail
  once and succeed once;
- the random UUID of a new person (`freshId`, required not to be a key already);
- the last-update instant the new person's saved row ends up with
  (`savedUpdatedAt`). `createPerson` builds the entity from the id and the
  personal number only. Whether persisting then adds a timestamp depends on
  entity callbacks or database defaults, and neither is part of this model, so
  the value is left open.

Instants are integers. A citizen's `updatedAt` is optional. A SQL comparison
with NULL never holds, so the addresses of a citizen without a timestamp
qualify only when the threshold is null.

Classification is checked only by `getCitizenById` and `getCitizensByIds`.
`getPersonalNumberById`, `getPersonIdByPersonalNumber` and
`getPersonIdsInBatch` apply no classification check. They return a classified
citizen's personal number or id without any opt-in, and the model does the
same (`LookupsIgnoreClassification`). The formats of the two
NOT_FOUND messages ("No citizen found with ID: %s", "No citizen found with
personal number: %s") are taken from the service's tests. The constants class
that defines them, `ServiceConstants`, is not part of this model.

## Model

| member | source | states |
|---|---|---|
| `Entities.InsertPreservesStoreInvariants` | src/main/java/se/sundsvall/citizen/service/CitizenService.java:127-137 | inserting a record under a fresh id whose personal number nobody holds keeps records under their own ids and personal numbers unique, and makes the number taken |
| `CitizenAddressSpecification.ChangedSinceRule` | src/main/java/se/sundsvall/citizen/integration/db/specification/CitizenAddressSpecification.java:11-15 | the definition spelled out, not a separate result: a null threshold accepts every address; a present one accepts an address iff its owner exists and has an `updatedAt` that is `>=` the threshold |
| `CitizenAddressSpecification.ChangedSinceMonotone` | src/main/java/se/sundsvall/citizen/integration/db/specification/CitizenAddressSpecification.java:12-13 | an address accepted at a threshold is accepted at every lower one |
| `CitizenAddressSpecification.EqualFilterRule` | src/main/java/se/sundsvall/citizen/integration/db/specification/CitizenAddressSpecification.java:41-43 | the definition spelled out, not a separate result: a null value accepts every row; a present value accepts a row iff the named column equals it, so a NULL column never matches |
| `CitizenAddressSpecification.NamedFiltersTestOwnColumn` | src/main/java/se/sundsvall/citizen/integration/db/specification/CitizenAddressSpecification.java:17-31 | `withStatus`, `withCity`, `withAddressType` and `withPostalCode` each depend only on their own column and, given a value, accept exactly the rows holding it |
| `CitizenAddressService.FindAll` | src/main/java/se/sundsvall/citizen/service/CitizenAddressService.java:23-24 | the query result is no longer than the table and holds an address iff the table holds it and the "changed since" predicate accepts it |
| `CitizenAddressService.FindAllAppend` | src/main/java/se/sundsvall/citizen/service/CitizenAddressService.java:23-24 | the query distributes over concatenation of the table, so accepted rows keep table order |
| `CitizenAddressService.FindAllNullThreshold` | src/main/java/se/sundsvall/citizen/service/CitizenAddressService.java:24 | with a null threshold the query returns the whole table, unchanged |
| `CitizenAddressService.FindAllMonotone` | src/main/java/se/sundsvall/citizen/service/CitizenAddressService.java:24 | for t1 <= t2, filtering the t1 result at t2 gives the t2 result: the t2 rows are the t1 rows that still qualify, in the same order |
| `CitizenAddressService.FindAllNoneQualify` | src/main/java/se/sundsvall/citizen/service/CitizenAddressService.java:23-24 | a table in which no row qualifies yields no rows |
| `CitizenAddressService.GetCitizensWithChangedAddress` | src/main/java/se/sundsvall/citizen/service/CitizenAddressService.java:22-28 | one summary per accepted address: summary i maps accepted address i, and the result is no longer than the table |
| `CitizenAddressService.NoQualifyingAddressGivesEmpty` | src/main/java/se/sundsvall/citizen/service/CitizenAddressService.java:22-28 | when no address qualifies the answer is the empty list, not an error |
| `CitizenAddressService.NullThresholdSummarisesAll` | src/main/java/se/sundsvall/citizen/service/CitizenAddressService.java:22-28 | with a null threshold every stored address is summarised, in table order |
| `CitizenAddressService.RaisingThresholdNarrows` | src/main/java/se/sundsvall/citizen/service/CitizenAddressService.java:22-28 | the answer at a higher threshold is the answer over the rows accepted at a lower one, and is no longer |
| `Service.CitizenService.constructor` | src/main/java/se/sundsvall/citizen/service/CitizenService.java:39-46 | the service starts over the given tables, with the store invariant established |
| `Service.CitizenService.FindByPersonalNumber` | src/main/java/se/sundsvall/citizen/integration/db/CitizenRepository.java:22 | finds a record iff some record holds the personal number, and the one found holds it and is the record stored under its id |
| `Service.CitizenService.GetCitizenById` | src/main/java/se/sundsvall/citizen/service/CitizenService.java:48-57 | fails with NOT_FOUND "No citizen found with ID: <id>" iff the id is unknown; otherwise returns a record iff it is visible (unclassified or opted in), and that record is the mapped stored one; a classified record without opt-in gives null |
| `Service.CitizenService.FindVisible` | src/main/java/se/sundsvall/citizen/service/CitizenService.java:60-64 | the batch's records are no more than the input ids, every one is visible (no classified record without opt-in) and stored under an input id, and every visible stored input id contributes its record |
| `Service.CitizenService.FindVisibleAppend` | src/main/java/se/sundsvall/citizen/service/CitizenService.java:60-64 | the batch lookup distributes over concatenation of the input, so results keep input order |
| `Service.CitizenService.FindVisibleAgreesWithGetById` | src/main/java/se/sundsvall/citizen/service/CitizenService.java:59-67 | on one id the batch yields the record exactly when `getCitizenById` returns one, and nothing when it fails or returns null |
| `Service.CitizenService.GetCitizensByIds` | src/main/java/se/sundsvall/citizen/service/CitizenService.java:59-67 | never fails on non-null ids; at most as long as the input; entry k is the mapped k-th visible record |
| `Service.CitizenService.ClassifiedNeverListed` | src/main/java/se/sundsvall/citizen/service/CitizenService.java:64 | without opt-in, a batch of classified or unknown ids yields nothing |
| `Service.CitizenService.GetCitizensWithChangedAddress` | src/main/java/se/sundsvall/citizen/service/CitizenService.java:69-75 | the copy in CitizenService answers exactly as CitizenAddressService does over the same tables |
| `Service.CitizenService.GetPersonalNumberById` | src/main/java/se/sundsvall/citizen/service/CitizenService.java:77-82 | succeeds iff the id is stored, with that record's personal number; otherwise NOT_FOUND "No citizen found with ID: <id>" |
| `Service.CitizenService.GetPersonIdByPersonalNumber` | src/main/java/se/sundsvall/citizen/service/CitizenService.java:84-96 | for municipality "2281": the Party answer for type "PRIVATE", verbatim, null included; otherwise succeeds iff the number is stored, with the id of the record holding it, and fails with NOT_FOUND "No citizen found with personal number: <number>" |
| `Service.CitizenService.PartyPathIgnoresStore` | src/main/java/se/sundsvall/citizen/service/CitizenService.java:91-95 | on the "2281" path two different stores give the same answer |
| `Service.CitizenService.LocalLookupsRoundTrip` | src/main/java/se/sundsvall/citizen/service/CitizenService.java:77-90 | the personal number of a stored id resolves back to that id locally, and a locally resolved id has the personal number it was resolved from |
| `Service.CitizenService.ResolveEntry` | src/main/java/se/sundsvall/citizen/service/CitizenService.java:100-118 | the entry carries its input as `personNumber`; it succeeds iff processing does not throw and the number is stored, and then has the id of the record holding it and no message; a failed entry has no id and carries "Error processing request: " followed by the exception message when processing threw, or "Citizen not found" when the number is not stored |
| `Service.CitizenService.GetPersonIdsInBatch` | src/main/java/se/sundsvall/citizen/service/CitizenService.java:98-120 | never fails; exactly one entry per input, and entry i is the entry for input i with the failure (if any) of position i |
| `Service.CitizenService.RepeatedNumberMayResolveDifferently` | src/main/java/se/sundsvall/citizen/service/CitizenService.java:100-118 | a stored number given twice, where the first lookup throws and the second does not, gives a failed "Error processing request: " entry and then a successful one |
| `Service.CitizenService.BatchAgreesWithLocalLookup` | src/main/java/se/sundsvall/citizen/service/CitizenService.java:84-120 | a successful batch entry names the id the local single lookup returns; a "Citizen not found" entry is one where the local lookup fails |
| `Service.CitizenService.LookupsIgnoreClassification` | src/main/java/se/sundsvall/citizen/service/CitizenService.java:77-120 | a classified citizen's personal number, its id and a successful batch entry are all returned without any opt-in |
| `Service.CitizenService.CreatePerson` | src/main/java/se/sundsvall/citizen/service/CitizenService.java:122-139 | a null person, null number or blank number gives BAD_REQUEST "Personal number is required"; a stored number gives CONFLICT "Person with personal number <n> already exists"; both leave the store unchanged. Otherwise exactly one record `(freshId, number, no classification, savedUpdatedAt)` is added and `freshId` returned. The store invariant (unique personal numbers) is kept, the address table is unchanged, and a later lookup of the number finds the new record |

## Left out

- The HTTP controller (`CitizenResource`) is not modelled. This covers routing, mapping null or empty results to 204, and UUID validation of path variables.
- The Party client and its configuration are left out. This covers the remote call, OAuth2 and timeouts. The call is the `party` parameter, and the integration's swallowing of failures into null is expressed by its `Option` result.
- The JPA repositories are replaced by the map and the sequence. `findAllByParameters` is not modelled: it depends on a citizen specification and on paging, and neither is part of this model. Transactions are not modelled, nor is the circuit breaker itself; a batch entry whose lookup it fails is covered by `failures`.
- The repositories do not list address rows in any particular order. The model keeps table order.
- The mappers `CitizenMapper` and `CitizenAddressMapper` are function parameters. Their field copying, and the `UUID.fromString` inside them, are not modelled.
- Person ids are strings. The round trip between a UUID and its canonical text is taken as the identity, and the parsing failures of `UUID.fromString` are not modelled. The one exception is the batch entry's "processing threw" branch: the `failures` parameter covers it, together with datastore errors and an open circuit breaker during the lookup.
- `Service.CitizenService.CreatePerson`: the random UUID is an input, not drawn. A collision with an existing id is excluded by a precondition. The datastore's own failures on `save` are not modelled.
- `Service.CitizenService.FindByPersonalNumber`: requires the store invariant of unique personal numbers. The model does not cover the repository's failure when two records share a number.
- A stored personal number is never null in the model. Records written by outside data syncs could hold null. For such a record `getPersonalNumberById` fails with NOT_FOUND "No citizen found with ID: <id>", because mapping the found record to a null number leaves the Optional empty. The model cannot express this case.
- Null list elements are not modelled: ids and personal numbers are strings, never null. On a null id `getCitizensByIds` throws a NullPointerException from `id.toString()`. On a null personal number `getPersonIdsInBatch` gives an entry whose `personNumber` is null, whatever its lookup then does.
- Citizen attributes that no core operation reads are not modelled: names, gender, civil status, date and protected-status flag.
- The injected `ObjectMapper` is never used by the logic and is left out.
