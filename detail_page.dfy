/**
 * The raffle detail page (`DetalleRifa`): the buyer picks a quantity, gives a
 * name and phone, and the page reserves the lowest free numbers as a pending
 * request.
 */
module DetailPage {
  import opened JsValues
  import opened NumberSets
  import opened Records

  datatype Country = Country(code: string, name: string, dialCode: string)

  /** The country list of the phone field; Venezuela is selected first. */
  const Countries: seq<Country> := [
    Country("VE", "Venezuela", "+58"),
    Country("CO", "Colombia", "+57"),
    Country("US", "Estados Unidos", "+1"),
    Country("ES", "España", "+34"),
    Country("AR", "Argentina", "+54"),
    Country("CL", "Chile", "+56"),
    Country("MX", "México", "+52")
  ]

  /** `countries.find(c => c.code === code)`. */
  function FindCountry(code: string): (r: Option<Country>)
    ensures r.Some? ==> r.value in Countries && r.value.code == code
    ensures r.None? ==> forall c :: c in Countries ==> c.code != code
  {
    FindCountryIn(Countries, code)
  }

  function FindCountryIn(cs: seq<Country>, code: string): (r: Option<Country>)
    ensures r.Some? ==> r.value in cs && r.value.code == code
    ensures r.None? ==> forall c :: c in cs ==> c.code != code
  {
    if cs == [] then None
    else if cs[0].code == code then Some(cs[0])
    else FindCountryIn(cs[1..], code)
  }

  /**
   * `asignarNumerosAutomaticos(cantidad)`: nothing without a loaded raffle,
   * otherwise the lowest-first allocation over the raffle's lists.
   */
  function AssignNumbers(rifa: Option<RaffleRow>, quantity: nat): (r: seq<int>)
    ensures rifa.None? ==> r == []
    ensures rifa.Some? ==> r == Allocate(rifa.value.total, rifa.value.sold, rifa.value.unavailable, rifa.value.pending, quantity)
  {
    match rifa
    case None => []
    case Some(row) => Allocate(row.total, row.sold, row.unavailable, row.pending, quantity)
  }

  /** `numerosDisponiblesCount`: capacity minus the lengths of the three lists, 0 without a raffle. */
  function AvailableCount(rifa: Option<RaffleRow>): int
  {
    match rifa
    case None => 0
    case Some(row) => row.total - |row.sold| - |row.unavailable| - |row.pending|
  }

  /** `totalPagar`: the quantity times the price per number, 0 without a raffle. */
  function TotalToPay(quantity: int, rifa: Option<RaffleRow>): int
  {
    quantity * (match rifa case None => 0 case Some(row) => row.price)
  }

  /**
   * The count shown next to the quantity field is the number of free
   * numbers whenever the raffle's lists are partitioned and its capacity is
   * positive.
   */
  lemma AvailableCountIsExact(rifa: Option<RaffleRow>)
    requires rifa.Some? ==> RowValid(rifa.value) && rifa.value.total > 0
    ensures AvailableCount(rifa) == |AssignNumbers(rifa, |AvailableList(rifa)|)|
    ensures AvailableCount(rifa) == |AvailableList(rifa)|
  {
    if rifa.Some? {
      var row := rifa.value;
      AvailableSize(row.total, row.sold, row.unavailable, row.pending);
    }
  }

  /** The available numbers of the loaded raffle (none without one). */
  function AvailableList(rifa: Option<RaffleRow>): seq<int>
  {
    match rifa
    case None => []
    case Some(row) => Available(row.total, row.sold, row.unavailable, row.pending)
  }

  /**
   * A quantity within the count shown on the page always gets a full
   * allocation, and the amount the buyer is told to pay is the price of
   * exactly the numbers assigned.
   */
  lemma TotalMatchesAssigned(quantity: nat, rifa: Option<RaffleRow>)
    requires rifa.Some? && RowValid(rifa.value) && rifa.value.total > 0 && quantity <= AvailableCount(rifa)
    ensures |AssignNumbers(rifa, quantity)| == quantity
    ensures TotalToPay(quantity, rifa) == |AssignNumbers(rifa, quantity)| * rifa.value.price
  {
    AvailableCountIsExact(rifa);
  }

  /**
   * The reservation writes the page's loaded pending list, extended by the
   * allocation, over the row the database holds. A number confirmed after
   * the page loaded is then pending and sold at once: the write undoes the
   * confirmation's removal from pending.
   */
  lemma StaleReserveRevivesConfirmed(current: RaffleRow, loaded: RaffleRow, allotted: seq<int>, x: int)
    requires x in loaded.pending && x in current.sold
    ensures !RowValid(current.(pending := loaded.pending + allotted))
  {
    var written := current.(pending := loaded.pending + allotted);
    assert x in written.pending;
    assert x in Elems(written.sold) * Elems(written.pending);
  }

  /** What `handleComprar` ends with, one value per message the page shows. */
  datatype BuyOutcome =
    | NoNumbers                  // no number could be assigned
    | ShortBy(count: nat)        // fewer numbers than requested could be assigned
    | MissingContact             // name or phone is empty
    | RaffleUpdateFailed         // the update of the raffle's pending list failed: nothing written
    | InsertFailed               // the participant insert failed after the raffle was updated
    | Sent(numbers: seq<int>, participantId: int)

  /** The detail page's component state. */
  class Page {
    var rifa: Option<RaffleRow>
    var quantity: int
    var name: string
    var phone: string
    var email: string
    var idNumber: string
    var country: Country

    /** The quantity field never holds less than 1. */
    ghost predicate Valid()
      reads this
    {
      quantity >= 1
    }

    /** The loaded raffle is the row the database holds under its id. */
    ghost predicate InSync(store: Store)
      reads this, store
    {
      rifa.Some? ==> rifa.value.id in store.raffles && store.raffles[rifa.value.id] == rifa.value
    }

    /** The page once `fetchRifa` has finished: the row that was read, or none when the read failed. */
    constructor (loaded: Option<RaffleRow>)
      ensures Valid()
      ensures rifa == loaded && quantity == 1 && country == Countries[0]
      ensures name == "" && phone == "" && email == "" && idNumber == ""
    {
      rifa := loaded;
      quantity := 1;
      name, phone, email, idNumber := "", "", "", "";
      country := Countries[0];
    }

    /** `handleCantidadChange`: only a parsed integer of at least 1 replaces the quantity. */
    method ChangeQuantity(text: string)
      requires Valid()
      modifies this`quantity
      ensures Valid()
      ensures ParseInt(text).Int? && ParseInt(text).value >= 1 ==> quantity == ParseInt(text).value
      ensures !(ParseInt(text).Int? && ParseInt(text).value >= 1) ==> quantity == old(quantity)
    {
      var value := ParseInt(text);
      if value.Int? && value.value >= 1 {
        quantity := value.value;
      }
    }

    /** `handleTelefonoChange`: the phone always starts with the selected dial code. */
    method ChangePhone(value: string)
      modifies this`phone
      ensures StartsWith(phone, country.dialCode)
      ensures StartsWith(value, country.dialCode) ==> phone == value
      ensures !StartsWith(value, country.dialCode) ==> phone == country.dialCode + ReplaceFirst(value, country.dialCode, "")
    {
      var dial := country.dialCode;
      if !StartsWith(value, dial) {
        phone := dial + ReplaceFirst(value, dial, "");
        assert phone[..|dial|] == dial;
      } else {
        phone := value;
      }
    }

    /**
     * `handleCountryChange`: a phone that starts with the old dial code gets
     * the new one in its place; any other phone becomes the new dial code.
     */
    method ChangeCountry(code: string)
      requires FindCountry(code).Some?
      modifies this`country, this`phone
      ensures country == FindCountry(code).value
      ensures StartsWith(phone, country.dialCode)
      ensures StartsWith(old(phone), old(country).dialCode)
              ==> phone == country.dialCode + old(phone)[|old(country).dialCode|..]
      ensures !StartsWith(old(phone), old(country).dialCode) ==> phone == country.dialCode
    {
      var previous := country;
      country := FindCountry(code).value;
      if StartsWith(phone, previous.dialCode) {
        phone := country.dialCode + phone[|previous.dialCode|..];
        assert phone[..|country.dialCode|] == country.dialCode;
      } else {
        phone := country.dialCode;
      }
    }

    /**
     * `handleComprar`. The checks run in the source's order and return
     * without writing anything; then the raffle's pending list is replaced by
     * the loaded list followed by the assigned numbers, and only after that
     * the pending participant is inserted, so a failed insert leaves the
     * numbers pending with no request holding them.
     */
    method Buy(store: Store, raffleUpdateFails: bool, insertFails: bool, now: string) returns (outcome: BuyOutcome)
      requires Valid() && store.Valid()
      modifies this`rifa, store`raffles, store`participants, store`nextParticipantId
      ensures Valid() && store.Valid()
      ensures var a := AssignNumbers(old(rifa), quantity);
              && (|a| == 0 <==> outcome == NoNumbers)
              && (0 < |a| < quantity <==> outcome == ShortBy(|a|))
              && (|a| == quantity && (name == "" || phone == "") <==> outcome == MissingContact)
      ensures outcome.NoNumbers? || outcome.ShortBy? || outcome.MissingContact? || outcome.RaffleUpdateFailed?
              ==> rifa == old(rifa) && store.raffles == old(store.raffles)
                  && store.participants == old(store.participants) && store.nextParticipantId == old(store.nextParticipantId)
      ensures outcome.InsertFailed? || outcome.Sent? ==>
              var r := old(rifa).value;
              && old(rifa).Some? && r.id in old(store.raffles)
              && store.raffles == old(store.raffles)[r.id := old(store.raffles)[r.id].(pending := r.pending + AssignNumbers(old(rifa), quantity))]
      ensures outcome.InsertFailed? ==>
              rifa == old(rifa) && store.participants == old(store.participants) && store.nextParticipantId == old(store.nextParticipantId)
      ensures outcome.Sent? ==>
              var r := old(rifa).value;
              var a := AssignNumbers(old(rifa), quantity);
              && outcome.numbers == a && |a| == quantity
              && outcome.participantId == old(store.nextParticipantId)
              && store.nextParticipantId == old(store.nextParticipantId) + 1
              && store.participants == old(store.participants)
                   + [Participant(old(store.nextParticipantId), r.id, name, phone, email, idNumber, a, Pending, now)]
              && rifa == Some(store.raffles[r.id])
      ensures outcome.Sent? && old(store.Sound()) && old(InSync(store)) ==> store.Sound() && InSync(store)
    {
      var allotted := AssignNumbers(rifa, quantity);
      if |allotted| == 0 {
        return NoNumbers;
      }
      if |allotted| < quantity {
        return ShortBy(|allotted|);
      }
      if name == "" || phone == "" {
        return MissingContact;
      }
      var row := rifa.value;
      var newPending := row.pending + allotted;
      if raffleUpdateFails || row.id !in store.raffles {
        return RaffleUpdateFailed;
      }
      ghost var wasSound := store.Sound() && InSync(store);
      ghost var oldRaffles, oldParticipants := store.raffles, store.participants;
      var updated := store.raffles[row.id].(pending := newPending);
      store.raffles := store.raffles[row.id := updated];
      if insertFails {
        return InsertFailed;
      }
      var p := Participant(store.nextParticipantId, row.id, name, phone, email, idNumber, allotted, Pending, now);
      store.participants := store.participants + [p];
      store.nextParticipantId := store.nextParticipantId + 1;
      rifa := Some(updated);
      if wasSound {
        ReserveKeepsConsistent(oldRaffles, oldParticipants, quantity, p);
      }
      return Sent(allotted, p.id);
    }

    /** The delayed reset after a successful request: empty contact fields, quantity back to 1. */
    method ClearForm()
      modifies this`name, this`phone, this`email, this`idNumber, this`quantity
      ensures Valid()
      ensures name == "" && phone == "" && email == "" && idNumber == "" && quantity == 1
    {
      name, phone, email, idNumber := "", "", "", "";
      quantity := 1;
    }
  }
}
