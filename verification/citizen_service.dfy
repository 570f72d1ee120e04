/**
 * CitizenService: lookups of citizens by person id and by personal number,
 * batch variants of both, and registration of a new person.
 *
 * The two repositories the service holds are its fields: the citizen table as a
 * map from personId to record, and the address table as a sequence. The read
 * operations are functions over those fields (they cannot change them);
 * createPerson is the one method that changes the citizen table.
 *
 * Collaborators whose code is not part of this model are parameters:
 * the mapper to the API citizen shape (`toCitizenExtended`), the address
 * mapper (`toSummary`), the upstream Party lookup (`party`), the failures
 * the processing of each batch entry may throw (`failures`, one per entry),
 * the random UUID a new person receives (`freshId`) and the last-update
 * instant its saved row ends up with (`savedUpdatedAt`).
 */
module Service {
  import opened Wrappers
  import opened Problems
  import opened Entities
  import CitizenAddressService

  /** The municipality whose personal-number lookups go to the Party service. */
  const SundsvallMunicipalityId := "2281"
  /** The party type the Party service is asked for. */
  const PrivatePartyType := "PRIVATE"

  const PersonalNumberRequired := "Personal number is required"
  const CitizenNotFound := "Citizen not found"
  const ErrorProcessingRequest := "Error processing request: "

  function CitizenNotFoundWithId(personId: string): string {
    "No citizen found with ID: " + personId
  }

  function CitizenNotFoundWithPersonalNumber(personalNumber: string): string {
    "No citizen found with personal number: " + personalNumber
  }

  function PersonAlreadyExists(personalNumber: string): string {
    "Person with personal number " + personalNumber + " already exists"
  }

  /** The personal number a ModelPostPerson carries, when the person and the number are both present. */
  predicate HasUsablePersonalNumber(person: Option<Option<string>>) {
    person.Some? && person.value.Some? && !IsBlank(person.value.value)
  }

  class CitizenService {
    var citizens: map<string, Citizen>
    var addresses: seq<Address>

    /** The store invariant: records under their own ids, personal numbers unique. */
    ghost predicate Valid()
      reads this
    {
      KeyedByPersonId(citizens) && UniquePersonalNumbers(citizens)
    }

    constructor (citizens: map<string, Citizen>, addresses: seq<Address>)
      requires KeyedByPersonId(citizens) && UniquePersonalNumbers(citizens)
      ensures Valid()
      ensures this.citizens == citizens && this.addresses == addresses
    {
      this.citizens := citizens;
      this.addresses := addresses;
    }

    /** citizenRepository.findByPersonalNumber: the record holding the personal number, if any. */
    function FindByPersonalNumber(personalNumber: string): (r: Option<Citizen>)
      reads this
      requires Valid()
      ensures r.Some? <==> PersonalNumberTaken(citizens, personalNumber)
      ensures r.Some? ==>
        r.value.personalNumber == personalNumber && r.value.personId in citizens && citizens[r.value.personId] == r.value
    {
      if PersonalNumberTaken(citizens, personalNumber) then
        var id :| id in citizens && citizens[id].personalNumber == personalNumber;
        Some(citizens[id])
      else
        None
    }

    /**
     * getCitizenById: NOT_FOUND for an unknown id; null (None) for a classified
     * citizen unless the caller opted in; otherwise the mapped record.
     */
    function GetCitizenById<E>(personId: string, showClassified: bool, toCitizenExtended: Citizen -> E): (r: Result<Option<E>>)
      reads this
      ensures r.Err? <==> personId !in citizens
      ensures r.Err? ==> r.problem == Problem(NotFound, CitizenNotFoundWithId(personId))
      ensures r.Ok? ==> (r.value.Some? <==> Visible(citizens[personId], showClassified))
      ensures r.Ok? && r.value.Some? ==> r.value.value == toCitizenExtended(citizens[personId])
    {
      if personId !in citizens then
        Err(Problem(NotFound, CitizenNotFoundWithId(personId)))
      else
        var citizen := citizens[personId];
        if !showClassified && citizen.classified.Some? then Ok(None)
        else Ok(Some(toCitizenExtended(citizen)))
    }

    /**
     * The records getCitizensByIds returns, before mapping: for each input id in
     * turn, its record when it exists and may be shown.
     */
    function FindVisible(personIds: seq<string>, showClassified: bool): (r: seq<Citizen>)
      reads this
      ensures |r| <= |personIds|
      ensures forall c :: c in r ==> Visible(c, showClassified)
      ensures forall c :: c in r ==> exists id :: id in personIds && id in citizens && citizens[id] == c
      ensures forall id :: id in personIds && id in citizens && Visible(citizens[id], showClassified) ==> citizens[id] in r
    {
      if personIds == [] then []
      else
        var id := personIds[0];
        var rest := FindVisible(personIds[1..], showClassified);
        assert personIds == [id] + personIds[1..];
        if id in citizens && Visible(citizens[id], showClassified) then [citizens[id]] + rest else rest
    }

    /** The batch lookup distributes over a split of its input: results keep input order. */
    lemma {:induction false} FindVisibleAppend(xs: seq<string>, ys: seq<string>, showClassified: bool)
      ensures FindVisible(xs + ys, showClassified) == FindVisible(xs, showClassified) + FindVisible(ys, showClassified)
    {
      if xs == [] {
        assert xs + ys == ys;
      } else {
        assert (xs + ys)[1..] == xs[1..] + ys;
        FindVisibleAppend(xs[1..], ys, showClassified);
      }
    }

    /**
     * On one id the batch lookup agrees with getCitizenById: it yields the record
     * exactly when getCitizenById returns one, and nothing when getCitizenById
     * fails or returns null.
     */
    lemma FindVisibleAgreesWithGetById<E>(personId: string, showClassified: bool, toCitizenExtended: Citizen -> E)
      ensures FindVisible([personId], showClassified)
        == (match GetCitizenById(personId, showClassified, toCitizenExtended)
            case Ok(Some(_)) => [citizens[personId]]
            case _ => [])
    {
    }

    /** getCitizensByIds: the mapped records of the visible input ids, in input order. */
    function GetCitizensByIds<E>(personIds: seq<string>, showClassified: bool, toCitizenExtended: Citizen -> E): (r: seq<E>)
      reads this
      ensures |r| <= |personIds|
      ensures var found := FindVisible(personIds, showClassified);
        |r| == |found| && forall k :: 0 <= k < |r| ==> r[k] == toCitizenExtended(found[k])
    {
      var found := FindVisible(personIds, showClassified);
      seq(|found|, k requires 0 <= k < |found| => toCitizenExtended(found[k]))
    }

    /** Without opting in, a batch of only classified or unknown ids yields nothing. */
    lemma {:induction false} ClassifiedNeverListed(personIds: seq<string>)
      requires forall i :: 0 <= i < |personIds| && personIds[i] in citizens ==> citizens[personIds[i]].classified.Some?
      ensures FindVisible(personIds, false) == []
    {
      if personIds != [] {
        var tail := personIds[1..];
        assert forall i :: 0 <= i < |tail| ==> tail[i] == personIds[i + 1];
        ClassifiedNeverListed(tail);
      }
    }

    /** getCitizensWithChangedAddress, which CitizenService duplicates from CitizenAddressService. */
    function GetCitizensWithChangedAddress<S>(changedDateFrom: Option<Instant>, toSummary: Address -> S): (r: seq<S>)
      reads this
      ensures r == CitizenAddressService.GetCitizensWithChangedAddress(citizens, addresses, changedDateFrom, toSummary)
    {
      CitizenAddressService.GetCitizensWithChangedAddress(citizens, addresses, changedDateFrom, toSummary)
    }

    /** getPersonalNumberById: the stored personal number, or NOT_FOUND. */
    function GetPersonalNumberById(personId: string): (r: Result<string>)
      reads this
      ensures r.Ok? <==> personId in citizens
      ensures r.Ok? ==> r.value == citizens[personId].personalNumber
      ensures r.Err? ==> r.problem == Problem(NotFound, CitizenNotFoundWithId(personId))
    {
      if personId in citizens then Ok(citizens[personId].personalNumber)
      else Err(Problem(NotFound, CitizenNotFoundWithId(personId)))
    }

    /**
     * getPersonIdByPersonalNumber: for municipality 2281 the Party service's
     * answer for a private party, passed through as it is (null included); for
     * any other municipality the personId of the local record, or NOT_FOUND.
     */
    function GetPersonIdByPersonalNumber(
      personNumber: string,
      municipalityId: string,
      party: (string, string, string) -> Option<string>): (r: Result<Option<string>>)
      reads this
      requires Valid()
      ensures municipalityId == SundsvallMunicipalityId ==> r == Ok(party(personNumber, municipalityId, PrivatePartyType))
      ensures municipalityId != SundsvallMunicipalityId ==> (r.Ok? <==> PersonalNumberTaken(citizens, personNumber))
      ensures municipalityId != SundsvallMunicipalityId && r.Ok? ==>
        r.value.Some? && r.value.value in citizens && citizens[r.value.value].personalNumber == personNumber
      ensures municipalityId != SundsvallMunicipalityId && r.Err? ==>
        r.problem == Problem(NotFound, CitizenNotFoundWithPersonalNumber(personNumber))
    {
      if municipalityId != SundsvallMunicipalityId then
        match FindByPersonalNumber(personNumber)
        case None => Err(Problem(NotFound, CitizenNotFoundWithPersonalNumber(personNumber)))
        case Some(citizen) => Ok(Some(citizen.personId))
      else
        Ok(party(personNumber, municipalityId, PrivatePartyType))
    }

    /** The Party path never consults the store: two stores give the same answer. */
    lemma PartyPathIgnoresStore(
      other: CitizenService,
      personNumber: string,
      party: (string, string, string) -> Option<string>)
      requires Valid() && other.Valid()
      ensures GetPersonIdByPersonalNumber(personNumber, SundsvallMunicipalityId, party)
           == other.GetPersonIdByPersonalNumber(personNumber, SundsvallMunicipalityId, party)
    {
    }

    /**
     * Local lookups in the two directions are inverse: the personal number of a
     * stored id resolves back to that id, and an id resolved from a personal
     * number has that personal number.
     */
    lemma LocalLookupsRoundTrip(
      personId: string,
      personNumber: string,
      municipalityId: string,
      party: (string, string, string) -> Option<string>)
      requires Valid()
      requires municipalityId != SundsvallMunicipalityId
      ensures personId in citizens ==>
        GetPersonIdByPersonalNumber(GetPersonalNumberById(personId).value, municipalityId, party) == Ok(Some(personId))
      ensures var r := GetPersonIdByPersonalNumber(personNumber, municipalityId, party);
        r.Ok? ==> GetPersonalNumberById(r.value.value) == Ok(personNumber)
    {
    }

    /**
     * One entry of getPersonIdsInBatch. `failure` is the message of the exception
     * this entry's processing throws, if it throws.
     */
    function ResolveEntry(personalNumber: string, failure: Option<string>): (r: PersonGuidBatch)
      reads this
      requires Valid()
      ensures r.personNumber == personalNumber
      ensures r.success <==> failure.None? && PersonalNumberTaken(citizens, personalNumber)
      ensures r.success ==>
        && r.errorMessage.None? && r.personId.Some?
        && r.personId.value in citizens && citizens[r.personId.value].personalNumber == personalNumber
      ensures !r.success ==> r.personId.None? && r.errorMessage.Some?
      ensures failure.Some? ==> r.errorMessage == Some(ErrorProcessingRequest + failure.value)
      ensures failure.None? && !PersonalNumberTaken(citizens, personalNumber) ==>
        r.errorMessage == Some(CitizenNotFound)
    {
      match failure
      case Some(message) =>
        PersonGuidBatch(personalNumber, None, false, Some(ErrorProcessingRequest + message))
      case None =>
        match FindByPersonalNumber(personalNumber)
        case Some(citizen) => PersonGuidBatch(personalNumber, Some(citizen.personId), true, None)
        case None => PersonGuidBatch(personalNumber, None, false, Some(CitizenNotFound))
    }

    /**
     * getPersonIdsInBatch: one entry per input personal number, in input order.
     * `failures[i]` is what the processing of entry i throws, if anything: a
     * datastore error or an open circuit breaker depends on when the lookup
     * runs, not on the number, so it is given per position.
     */
    function GetPersonIdsInBatch(personalNumbers: seq<string>, failures: seq<Option<string>>): (r: seq<PersonGuidBatch>)
      reads this
      requires Valid()
      requires |failures| == |personalNumbers|
      ensures |r| == |personalNumbers|
      ensures forall i :: 0 <= i < |r| ==> r[i] == ResolveEntry(personalNumbers[i], failures[i])
    {
      if personalNumbers == [] then []
      else [ResolveEntry(personalNumbers[0], failures[0])] + GetPersonIdsInBatch(personalNumbers[1..], failures[1..])
    }

    /**
     * Entries are processed one by one: the same personal number twice in a
     * batch may fail the first time (processing threw) and succeed the second.
     */
    lemma RepeatedNumberMayResolveDifferently(personalNumber: string, message: string)
      requires Valid()
      requires PersonalNumberTaken(citizens, personalNumber)
      ensures var r := GetPersonIdsInBatch([personalNumber, personalNumber], [Some(message), None]);
        && !r[0].success && r[0].errorMessage == Some(ErrorProcessingRequest + message)
        && r[1].success && r[1].personId.Some?
    {
      var r := GetPersonIdsInBatch([personalNumber, personalNumber], [Some(message), None]);
      assert r[0] == ResolveEntry(personalNumber, Some(message));
      assert r[1] == ResolveEntry(personalNumber, None);
    }

    /**
     * A successful batch entry names the same person a local single lookup
     * finds, and a "Citizen not found" entry is one where that lookup fails
     * with NOT_FOUND.
     */
    lemma BatchAgreesWithLocalLookup(
      personalNumbers: seq<string>,
      failures: seq<Option<string>>,
      i: nat,
      municipalityId: string,
      party: (string, string, string) -> Option<string>)
      requires Valid()
      requires |failures| == |personalNumbers|
      requires i < |personalNumbers|
      requires municipalityId != SundsvallMunicipalityId
      ensures var entry := GetPersonIdsInBatch(personalNumbers, failures)[i];
        var single := GetPersonIdByPersonalNumber(personalNumbers[i], municipalityId, party);
        && entry.personNumber == personalNumbers[i]
        && (entry.success ==> single == Ok(entry.personId))
        && (entry.errorMessage == Some(CitizenNotFound) && failures[i].None? ==> single.Err?)
    {
    }

    /**
     * getPersonalNumberById, getPersonIdByPersonalNumber and getPersonIdsInBatch
     * apply no classification check: a classified citizen's personal number and
     * id are returned without any opt-in.
     */
    lemma LookupsIgnoreClassification(
      personId: string,
      municipalityId: string,
      party: (string, string, string) -> Option<string>)
      requires Valid()
      requires personId in citizens && citizens[personId].classified.Some?
      requires municipalityId != SundsvallMunicipalityId
      ensures GetPersonalNumberById(personId) == Ok(citizens[personId].personalNumber)
      ensures GetPersonIdByPersonalNumber(citizens[personId].personalNumber, municipalityId, party) == Ok(Some(personId))
      ensures ResolveEntry(citizens[personId].personalNumber, None)
           == PersonGuidBatch(citizens[personId].personalNumber, Some(personId), true, None)
    {
    }

    /**
     * createPerson: BAD_REQUEST for a missing or blank personal number, CONFLICT
     * for one already stored, otherwise a new record under the fresh id, which is
     * returned. Only the citizen table changes, and only on success.
     * `savedUpdatedAt` is the last-update instant the saved row ends up with:
     * the entity is built without one, and what persisting adds is not part of
     * this model, so the value is an input like the fresh id.
     */
    method CreatePerson(person: Option<Option<string>>, freshId: string, savedUpdatedAt: Option<Instant>) returns (r: Result<string>)
      requires Valid()
      requires freshId !in citizens
      modifies this
      ensures Valid()
      ensures addresses == old(addresses)
      ensures !HasUsablePersonalNumber(person) ==>
        r == Err(Problem(BadRequest, PersonalNumberRequired)) && citizens == old(citizens)
      ensures HasUsablePersonalNumber(person) && PersonalNumberTaken(old(citizens), person.value.value) ==>
        r == Err(Problem(Conflict, PersonAlreadyExists(person.value.value))) && citizens == old(citizens)
      ensures HasUsablePersonalNumber(person) && !PersonalNumberTaken(old(citizens), person.value.value) ==>
        r == Ok(freshId) && citizens == old(citizens)[freshId := Citizen(freshId, person.value.value, None, savedUpdatedAt)]
      ensures r.Ok? ==> FindByPersonalNumber(person.value.value) == Some(citizens[freshId])
    {
      if !HasUsablePersonalNumber(person) {
        return Err(Problem(BadRequest, PersonalNumberRequired));
      }
      var personalNumber := person.value.value;
      if FindByPersonalNumber(personalNumber).Some? {
        return Err(Problem(Conflict, PersonAlreadyExists(personalNumber)));
      }
      var citizen := Citizen(freshId, personalNumber, None, savedUpdatedAt);
      InsertPreservesStoreInvariants(citizens, citizen);
      citizens := citizens[freshId := citizen];
      r := Ok(freshId);
    }
  }
}
