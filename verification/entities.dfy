/**
 * The persisted records (CitizenEntity and CitizenAddressEntity), the per-entry
 * batch answer (PersonGuidBatch) and the invariants of the citizen store.
 *
 * Only the attributes the core reads are kept. Time instants are plain integers
 * (an OffsetDateTime reduced to one instant, no time zones).
 */
module Entities {
  import opened Wrappers

  type Instant = int

  /**
   * A citizen record. `classified` is the classification marker (null when the
   * citizen is not classified); `updatedAt` is null when no timestamp was recorded.
   */
  datatype Citizen = Citizen(
    personId: string,
    personalNumber: string,
    classified: Option<string>,
    updatedAt: Option<Instant>)

  /**
   * An address record. `owner` is the personId of the citizen the address
   * belongs to (the entity's back-reference). The four filterable columns are
   * nullable.
   */
  datatype Address = Address(
    id: string,
    owner: string,
    status: Option<string>,
    city: Option<string>,
    addressType: Option<string>,
    postalCode: Option<string>)

  /** One entry of a batch resolution of personal numbers to person ids. */
  datatype PersonGuidBatch = PersonGuidBatch(
    personNumber: string,
    personId: Option<string>,
    success: bool,
    errorMessage: Option<string>)

  /** A citizen may be shown when the caller opted in or the citizen carries no classification. */
  predicate Visible(c: Citizen, showClassified: bool) {
    showClassified || c.classified.None?
  }

  /** Java's Character.isWhitespace: the space separators other than the no-break ones, and the ASCII controls 9-13 and 28-31. */
  predicate IsJavaWhitespace(c: char) {
    || c == ' '
    || ('\t' <= c <= '\r')
    || ('\U{1C}' <= c <= '\U{1F}')
    || c == '\U{1680}'
    || ('\U{2000}' <= c <= '\U{2006}')
    || ('\U{2008}' <= c <= '\U{200A}')
    || c == '\U{2028}' || c == '\U{2029}'
    || c == '\U{205F}' || c == '\U{3000}'
  }

  /** Java's String.isBlank: empty, or white space only. */
  predicate IsBlank(s: string) {
    forall i :: 0 <= i < |s| ==> IsJavaWhitespace(s[i])
  }

  /** Every record is stored under its own personId. */
  ghost predicate KeyedByPersonId(citizens: map<string, Citizen>) {
    forall id :: id in citizens ==> citizens[id].personId == id
  }

  /** No two records share a personal number. */
  ghost predicate UniquePersonalNumbers(citizens: map<string, Citizen>) {
    forall id1, id2 :: id1 in citizens && id2 in citizens && citizens[id1].personalNumber == citizens[id2].personalNumber ==> id1 == id2
  }

  /** Some record holds the personal number. */
  predicate PersonalNumberTaken(citizens: map<string, Citizen>, personalNumber: string) {
    exists id :: id in citizens && citizens[id].personalNumber == personalNumber
  }

  /**
   * Inserting a record under a fresh id, with a personal number no record holds,
   * keeps the store keyed by personId and its personal numbers unique.
   */
  lemma InsertPreservesStoreInvariants(citizens: map<string, Citizen>, c: Citizen)
    requires KeyedByPersonId(citizens) && UniquePersonalNumbers(citizens)
    requires c.personId !in citizens
    requires !PersonalNumberTaken(citizens, c.personalNumber)
    ensures KeyedByPersonId(citizens[c.personId := c])
    ensures UniquePersonalNumbers(citizens[c.personId := c])
    ensures PersonalNumberTaken(citizens[c.personId := c], c.personalNumber)
  {
    assert citizens[c.personId := c][c.personId] == c;
  }
}
