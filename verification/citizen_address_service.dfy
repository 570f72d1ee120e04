/**
 * CitizenAddressService: the "changed address" query. The repository's
 * findAll(spec) keeps the address rows the specification accepts, in table
 * order; the service maps each kept row to a summary with
 * CitizenAddressMapper.toCitizenWithChangedAddress, passed in here as
 * `toSummary` because its body is not part of this model.
 */
module CitizenAddressService {
  import opened Wrappers
  import opened Entities
  import opened CitizenAddressSpecification

  /** findAll(hasChangedAddressSince(changedDateFrom)): the accepted rows, in table order. */
  function FindAll(citizens: map<string, Citizen>, addresses: seq<Address>, changedDateFrom: Option<Instant>): (r: seq<Address>)
    ensures |r| <= |addresses|
    ensures forall a :: a in r <==> a in addresses && HasChangedAddressSince(changedDateFrom, citizens, a)
  {
    if addresses == [] then []
    else
      var rest := FindAll(citizens, addresses[1..], changedDateFrom);
      assert addresses == [addresses[0]] + addresses[1..];
      if HasChangedAddressSince(changedDateFrom, citizens, addresses[0]) then [addresses[0]] + rest else rest
  }

  /** The query distributes over a split of the table: results keep table order. */
  lemma {:induction false} FindAllAppend(citizens: map<string, Citizen>, xs: seq<Address>, ys: seq<Address>, changedDateFrom: Option<Instant>)
    ensures FindAll(citizens, xs + ys, changedDateFrom) == FindAll(citizens, xs, changedDateFrom) + FindAll(citizens, ys, changedDateFrom)
  {
    if xs == [] {
      assert xs + ys == ys;
    } else {
      assert (xs + ys)[1..] == xs[1..] + ys;
      FindAllAppend(citizens, xs[1..], ys, changedDateFrom);
    }
  }

  /** With a null threshold the query returns the whole table. */
  lemma {:induction false} FindAllNullThreshold(citizens: map<string, Citizen>, addresses: seq<Address>)
    ensures FindAll(citizens, addresses, None) == addresses
  {
    if addresses != [] {
      FindAllNullThreshold(citizens, addresses[1..]);
      assert addresses == [addresses[0]] + addresses[1..];
    }
  }

  /**
   * Querying the result at a lower threshold with a higher one gives the result
   * at the higher threshold: what qualifies at `from2` is the part, in the same
   * order, of what qualifies at `from1`.
   */
  lemma {:induction false} FindAllMonotone(citizens: map<string, Citizen>, addresses: seq<Address>, from1: Instant, from2: Instant)
    requires from1 <= from2
    ensures FindAll(citizens, FindAll(citizens, addresses, Some(from1)), Some(from2)) == FindAll(citizens, addresses, Some(from2))
  {
    if addresses != [] {
      FindAllMonotone(citizens, addresses[1..], from1, from2);
      var a := addresses[0];
      var rest := FindAll(citizens, addresses[1..], Some(from1));
      if HasChangedAddressSince(Some(from1), citizens, a) {
        assert FindAll(citizens, addresses, Some(from1)) == [a] + rest;
        assert ([a] + rest)[1..] == rest;
      } else {
        ChangedSinceMonotone(from1, from2, citizens, a);
      }
    }
  }

  /** A table in which no row qualifies yields no rows. */
  lemma {:induction false} FindAllNoneQualify(citizens: map<string, Citizen>, addresses: seq<Address>, changedDateFrom: Option<Instant>)
    requires forall i :: 0 <= i < |addresses| ==> !HasChangedAddressSince(changedDateFrom, citizens, addresses[i])
    ensures FindAll(citizens, addresses, changedDateFrom) == []
  {
    if addresses != [] {
      var tail := addresses[1..];
      assert forall i :: 0 <= i < |tail| ==> tail[i] == addresses[i + 1];
      FindAllNoneQualify(citizens, tail, changedDateFrom);
    }
  }

  /** getCitizensWithChangedAddress: one summary per accepted address, in table order. */
  function GetCitizensWithChangedAddress<S>(
    citizens: map<string, Citizen>,
    addresses: seq<Address>,
    changedDateFrom: Option<Instant>,
    toSummary: Address -> S): (r: seq<S>)
    ensures var found := FindAll(citizens, addresses, changedDateFrom);
      |r| == |found| && forall i :: 0 <= i < |r| ==> r[i] == toSummary(found[i])
    ensures |r| <= |addresses|
  {
    var found := FindAll(citizens, addresses, changedDateFrom);
    seq(|found|, i requires 0 <= i < |found| => toSummary(found[i]))
  }

  /** When no address qualifies the answer is the empty list, not an error. */
  lemma NoQualifyingAddressGivesEmpty<S>(
    citizens: map<string, Citizen>,
    addresses: seq<Address>,
    changedDateFrom: Option<Instant>,
    toSummary: Address -> S)
    requires forall i :: 0 <= i < |addresses| ==> !HasChangedAddressSince(changedDateFrom, citizens, addresses[i])
    ensures GetCitizensWithChangedAddress(citizens, addresses, changedDateFrom, toSummary) == []
  {
    FindAllNoneQualify(citizens, addresses, changedDateFrom);
  }

  /** With a null threshold every stored address is summarised, in table order. */
  lemma NullThresholdSummarisesAll<S>(citizens: map<string, Citizen>, addresses: seq<Address>, toSummary: Address -> S)
    ensures var r := GetCitizensWithChangedAddress(citizens, addresses, None, toSummary);
      |r| == |addresses| && forall i :: 0 <= i < |r| ==> r[i] == toSummary(addresses[i])
  {
    FindAllNullThreshold(citizens, addresses);
  }

  /**
   * Raising the threshold shrinks the answer to the summaries of the addresses
   * that still qualify: the answer at `from2` is the answer computed over the
   * rows accepted at `from1`.
   */
  lemma RaisingThresholdNarrows<S>(citizens: map<string, Citizen>, addresses: seq<Address>, from1: Instant, from2: Instant, toSummary: Address -> S)
    requires from1 <= from2
    ensures GetCitizensWithChangedAddress(citizens, FindAll(citizens, addresses, Some(from1)), Some(from2), toSummary)
         == GetCitizensWithChangedAddress(citizens, addresses, Some(from2), toSummary)
    ensures |GetCitizensWithChangedAddress(citizens, addresses, Some(from2), toSummary)|
         <= |GetCitizensWithChangedAddress(citizens, addresses, Some(from1), toSummary)|
  {
    FindAllMonotone(citizens, addresses, from1, from2);
  }
}
