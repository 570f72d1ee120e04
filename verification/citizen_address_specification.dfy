/**
 * The query predicates of CitizenAddressSpecification, each as a test of one
 * address record. A JPA Specification is a predicate the database evaluates per
 * row; here the row is an Address and, for the "changed since" test, the record
 * of its owning citizen, looked up in the citizen table.
 *
 * Every predicate follows the same rule: an absent (null) argument applies no
 * filtering, a present one compares. Comparisons follow SQL: a NULL column
 * satisfies neither `>=` nor `=`.
 */
module CitizenAddressSpecification {
  import opened Wrappers
  import opened Entities

  /** The owner's last-update instant, when the owner exists and has one. */
  function OwnerUpdatedAt(citizens: map<string, Citizen>, a: Address): Option<Instant> {
    if a.owner in citizens then citizens[a.owner].updatedAt else None
  }

  /** hasChangedAddressSince: the owning citizen was updated at or after `changedDateFrom`. */
  predicate HasChangedAddressSince(changedDateFrom: Option<Instant>, citizens: map<string, Citizen>, a: Address) {
    match changedDateFrom
    case None => true
    case Some(from) => OwnerUpdatedAt(citizens, a).Some? && OwnerUpdatedAt(citizens, a).value >= from
  }

  /** The columns buildEqualFilter is called with. */
  datatype AddressColumn = StatusColumn | CityColumn | AddressTypeColumn | PostalCodeColumn

  /** The value of a column of an address row. */
  function ColumnValue(a: Address, column: AddressColumn): Option<string> {
    match column
    case StatusColumn => a.status
    case CityColumn => a.city
    case AddressTypeColumn => a.addressType
    case PostalCodeColumn => a.postalCode
  }

  /** buildEqualFilter: no filtering for a null value, otherwise column equality. */
  predicate BuildEqualFilter(column: AddressColumn, value: Option<string>, a: Address) {
    match value
    case None => true
    case Some(v) => ColumnValue(a, column) == Some(v)
  }

  predicate WithStatus(status: Option<string>, a: Address) {
    BuildEqualFilter(StatusColumn, status, a)
  }

  predicate WithCity(city: Option<string>, a: Address) {
    BuildEqualFilter(CityColumn, city, a)
  }

  predicate WithAddressType(addressType: Option<string>, a: Address) {
    BuildEqualFilter(AddressTypeColumn, addressType, a)
  }

  predicate WithPostalCode(postalCode: Option<string>, a: Address) {
    BuildEqualFilter(PostalCodeColumn, postalCode, a)
  }

  /**
   * The "changed since" rule, spelled out: a null threshold accepts every
   * address; a present one accepts exactly the addresses whose owner exists and
   * was updated at or after it (inclusive). An owner without a timestamp never
   * qualifies.
   */
  lemma ChangedSinceRule(changedDateFrom: Option<Instant>, citizens: map<string, Citizen>, a: Address)
    ensures changedDateFrom.None? ==> HasChangedAddressSince(changedDateFrom, citizens, a)
    ensures changedDateFrom.Some? ==>
      (HasChangedAddressSince(changedDateFrom, citizens, a) <==>
        a.owner in citizens && citizens[a.owner].updatedAt.Some? && citizens[a.owner].updatedAt.value >= changedDateFrom.value)
  {
  }

  /** Lowering the threshold never rejects an address that a higher one accepted. */
  lemma ChangedSinceMonotone(from1: Instant, from2: Instant, citizens: map<string, Citizen>, a: Address)
    requires from1 <= from2
    ensures HasChangedAddressSince(Some(from2), citizens, a) ==> HasChangedAddressSince(Some(from1), citizens, a)
  {
  }

  /** The equality rule, spelled out: a null value accepts every address; a present one accepts exactly the rows whose column holds it. */
  lemma EqualFilterRule(column: AddressColumn, value: Option<string>, a: Address)
    ensures value.None? ==> BuildEqualFilter(column, value, a)
    ensures value.Some? ==> (BuildEqualFilter(column, value, a) <==> ColumnValue(a, column) == value)
    ensures value.Some? && ColumnValue(a, column).None? ==> !BuildEqualFilter(column, value, a)
  {
  }

  /**
   * Each named filter tests only its own column: two addresses that agree on
   * that column are treated alike, whatever else differs, and a present value
   * accepts exactly the rows holding it.
   */
  lemma NamedFiltersTestOwnColumn(value: Option<string>, a: Address, b: Address)
    ensures a.status == b.status ==> WithStatus(value, a) == WithStatus(value, b)
    ensures a.city == b.city ==> WithCity(value, a) == WithCity(value, b)
    ensures a.addressType == b.addressType ==> WithAddressType(value, a) == WithAddressType(value, b)
    ensures a.postalCode == b.postalCode ==> WithPostalCode(value, a) == WithPostalCode(value, b)
    ensures value.Some? ==> (WithStatus(value, a) <==> a.status == value)
    ensures value.Some? ==> (WithCity(value, a) <==> a.city == value)
    ensures value.Some? ==> (WithAddressType(value, a) <==> a.addressType == value)
    ensures value.Some? ==> (WithPostalCode(value, a) <==> a.postalCode == value)
  {
  }
}
