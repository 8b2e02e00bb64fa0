/**
 * The administration panel (`AdminPanel`): confirming and rejecting pending
 * requests, opening and closing raffles, the statistics header, the winner
 * search by number, and the roulette that draws one sold number.
 */
module AdminPanel {
  import opened JsValues
  import opened NumberSets
  import opened Records

  /** A pending request as the panel lists it: the participant row and the snapshot of its raffle joined to it. */
  datatype Request = Request(participant: Participant, raffle: RaffleRow)

  /** One roulette entry: a number and the confirmed participant that bought it. */
  datatype Entry = Entry(number: int, owner: Participant)

  /** What a confirm or reject click ends with. */
  datatype AdminOutcome =
    | Cancelled            // the administrator dismissed the confirmation dialog
    | NotEnoughNumbers     // the fallback allocation came up short
    | Failed               // a database call failed; later steps were skipped
    | Done(numbers: seq<int>)

  /** What the winner search shows. */
  datatype SearchResult =
    | InvalidNumber        // the input is not a positive integer
    | SearchFailed         // the query failed
    | Found(owner: Participant, number: int)
    | NoHolder             // no confirmed participant holds the number

  // ----- statistics (`reduce` sums over the loaded raffles) -----

  /** `totalNumeros`: the sum of the capacities. */
  function TotalNumbers(rifas: seq<RaffleRow>): int
  {
    if rifas == [] then 0 else TotalNumbers(rifas[..|rifas| - 1]) + rifas[|rifas| - 1].total
  }

  /** `numerosVendidos`: the sum of the sold-list lengths. */
  function SoldNumbers(rifas: seq<RaffleRow>): nat
  {
    if rifas == [] then 0 else SoldNumbers(rifas[..|rifas| - 1]) + |rifas[|rifas| - 1].sold|
  }

  /** `totalRecaudado`: the sum over raffles of price times sold-list length. */
  function Revenue(rifas: seq<RaffleRow>): int
  {
    if rifas == [] then 0
    else Revenue(rifas[..|rifas| - 1]) + rifas[|rifas| - 1].price * |rifas[|rifas| - 1].sold|
  }

  /** A raffle whose lists are partitioned never sells more numbers than its capacity. */
  lemma SoldWithinTotal(r: RaffleRow)
    requires RowValid(r)
    ensures |r.sold| <= if r.total > 0 then r.total else 0
  {
    var range := Range(r.total);
    NoDupsCard(r.sold);
    NoDupsCard(range);
    var a, b := Elems(r.sold), Elems(range);
    assert a <= b;
    assert b == a + (b - a);
  }

  /**
   * With every loaded raffle partitioned and of non-negative capacity, the
   * header's sold count never exceeds its total count, so the percentage
   * shown is at most 100.
   */
  lemma {:induction false} SoldNumbersWithinTotal(rifas: seq<RaffleRow>)
    requires forall i :: 0 <= i < |rifas| ==> RowValid(rifas[i]) && rifas[i].total >= 0
    ensures SoldNumbers(rifas) <= TotalNumbers(rifas)
  {
    if rifas != [] {
      SoldNumbersWithinTotal(rifas[..|rifas| - 1]);
      SoldWithinTotal(rifas[|rifas| - 1]);
    }
  }

  // ----- opening and closing a raffle -----

  /** The status a toggle click writes: an open raffle is closed, anything else is opened. */
  function NextStatus(current: string): (next: string)
    ensures next == "activa" || next == "culminada"
    ensures next == "culminada" <==> current == "activa"
  {
    if current == "activa" then "culminada" else "activa"
  }

  /** `prevRifas.map(rifa => rifa.id === id ? { ...rifa, estado: status } : rifa)`. */
  function SetStatus(rifas: seq<RaffleRow>, id: int, status: string): (r: seq<RaffleRow>)
    ensures |r| == |rifas|
    ensures forall i :: 0 <= i < |rifas| ==> r[i] == if rifas[i].id == id then rifas[i].(status := status) else rifas[i]
  {
    seq(|rifas|, i requires 0 <= i < |rifas| => if rifas[i].id == id then rifas[i].(status := status) else rifas[i])
  }

  /** Changing a status changes none of the statistics. */
  lemma {:induction false} SetStatusKeepsStatistics(rifas: seq<RaffleRow>, id: int, status: string)
    ensures TotalNumbers(SetStatus(rifas, id, status)) == TotalNumbers(rifas)
    ensures SoldNumbers(SetStatus(rifas, id, status)) == SoldNumbers(rifas)
    ensures Revenue(SetStatus(rifas, id, status)) == Revenue(rifas)
  {
    if rifas != [] {
      var init := rifas[..|rifas| - 1];
      SetStatusKeepsStatistics(init, id, status);
      var r := SetStatus(rifas, id, status);
      assert r[..|r| - 1] == SetStatus(init, id, status);
    }
  }

  // ----- the roulette -----

  /** `(p.numeros_comprados || []).map(num => ({ numero: num, participante: p }))`. */
  function EntriesOf(p: Participant): (r: seq<Entry>)
    ensures |r| == |p.numbers|
    ensures forall i :: 0 <= i < |r| ==> r[i] == Entry(p.numbers[i], p)
  {
    seq(|p.numbers|, i requires 0 <= i < |p.numbers| => Entry(p.numbers[i], p))
  }

  /** `participantes.flatMap(...)`: one entry per element of each participant's numbers, participant by participant. */
  function Flatten(ps: seq<Participant>): seq<Entry>
  {
    if ps == [] then [] else EntriesOf(ps[0]) + Flatten(ps[1..])
  }

  /** The number of numbers the participants bought. */
  function Bought(ps: seq<Participant>): nat
  {
    if ps == [] then 0 else |ps[0].numbers| + Bought(ps[1..])
  }

  /**
   * The roulette list has one entry per element of the participants'
   * number lists, no more and no less: every entry pairs a participant with
   * one of its own numbers, and every number of every participant has an
   * entry.
   */
  lemma {:induction false} FlattenSpec(ps: seq<Participant>)
    ensures |Flatten(ps)| == Bought(ps)
    ensures forall e :: e in Flatten(ps) ==> e.owner in ps && e.number in e.owner.numbers
    ensures forall p, n :: p in ps && n in p.numbers ==> Entry(n, p) in Flatten(ps)
  {
    if ps != [] {
      FlattenSpec(ps[1..]);
      var head := EntriesOf(ps[0]);
      assert forall e :: e in head ==> e.owner == ps[0] && e.number in ps[0].numbers;
      forall p, n | p in ps && n in p.numbers ensures Entry(n, p) in Flatten(ps) {
        if p == ps[0] {
          var i :| 0 <= i < |p.numbers| && p.numbers[i] == n;
          assert head[i] == Entry(n, p);
        } else {
          assert p in ps[1..];
        }
      }
    }
  }

  /** `.eq('rifa_id', raffleId).eq('estado', 'confirmado')` over `participantes`. */
  function ConfirmedOf(ps: seq<Participant>, raffleId: int): (r: seq<Participant>)
    ensures forall p :: p in r <==> p in ps && p.state == Confirmed && p.raffleId == raffleId
  {
    if ps == [] then []
    else
      var rest := ConfirmedOf(ps[1..], raffleId);
      assert forall p :: p in ps <==> p == ps[0] || p in ps[1..];
      if ps[0].state == Confirmed && ps[0].raffleId == raffleId then [ps[0]] + rest else rest
  }

  /**
   * In a consistent inventory the roulette only offers numbers its raffle
   * has sold: a number still pending can never be drawn.
   */
  lemma RouletteOffersSoldNumbers(raffles: map<int, RaffleRow>, ps: seq<Participant>, raffleId: int)
    requires Consistent(raffles, ps)
    ensures forall e :: e in Flatten(ConfirmedOf(ps, raffleId)) ==> raffleId in raffles && e.number in raffles[raffleId].sold
  {
    var confirmed := ConfirmedOf(ps, raffleId);
    FlattenSpec(confirmed);
    forall e | e in Flatten(confirmed) ensures raffleId in raffles && e.number in raffles[raffleId].sold {
      var i :| 0 <= i < |ps| && ps[i] == e.owner;
      assert Backed(raffles, ps[i]);
      assert e.number in Elems(e.owner.numbers);
    }
  }

  /** `rifas.find(r => r.id === id)`. */
  function FindRaffle(rifas: seq<RaffleRow>, id: int): (r: Option<RaffleRow>)
    ensures r.Some? ==> r.value in rifas && r.value.id == id
    ensures r.None? ==> forall x :: x in rifas ==> x.id != id
  {
    if rifas == [] then None
    else if rifas[0].id == id then Some(rifas[0])
    else FindRaffle(rifas[1..], id)
  }

  // ----- the winner search -----

  /** The index of the first confirmed participant holding `n`, as `contains(...).eq('estado', 'confirmado')` and `[0]` find it. */
  function FirstHolder(ps: seq<Participant>, n: int): (r: Option<nat>)
    ensures r.Some? ==> r.value < |ps| && ps[r.value].state == Confirmed && n in ps[r.value].numbers
    ensures r.Some? ==> forall i :: 0 <= i < r.value ==> !(ps[i].state == Confirmed && n in ps[i].numbers)
    ensures r.None? ==> forall i :: 0 <= i < |ps| ==> !(ps[i].state == Confirmed && n in ps[i].numbers)
  {
    if ps == [] then None
    else if ps[0].state == Confirmed && n in ps[0].numbers then Some(0)
    else
      match FirstHolder(ps[1..], n)
      case None => None
      case Some(j) => Some(j + 1)
  }

  /**
   * `handleBuscarGanador`: input that does not parse to a positive integer
   * is refused before any query; otherwise the first confirmed participant
   * holding the number, in any raffle, is shown.
   */
  function SearchWinner(input: string, ps: seq<Participant>, queryFails: bool): (r: SearchResult)
    ensures r == InvalidNumber <==> !(ParseInt(input).Int? && ParseInt(input).value > 0)
    ensures r == SearchFailed <==> ParseInt(input).Int? && ParseInt(input).value > 0 && queryFails
    ensures r.Found? ==> r.number == ParseInt(input).value && r.owner in ps
                         && r.owner.state == Confirmed && r.number in r.owner.numbers
    ensures r.NoHolder? ==> forall p :: p in ps && p.state == Confirmed ==> ParseInt(input).value !in p.numbers
  {
    var parsed := ParseInt(input);
    if parsed.NaN? || parsed.value <= 0 then InvalidNumber
    else if queryFails then SearchFailed
    else
      match FirstHolder(ps, parsed.value)
      case None => NoHolder
      case Some(i) => Found(ps[i], parsed.value)
  }

  // ----- the pending-request list -----

  /** `solicitudesPendientes.filter(s => s.id !== id)`. */
  function DropRequest(requests: seq<Request>, id: int): (r: seq<Request>)
    ensures forall q :: q in r <==> q in requests && q.participant.id != id
    ensures |r| <= |requests|
  {
    if requests == [] then []
    else
      var rest := DropRequest(requests[1..], id);
      assert forall q :: q in requests <==> q == requests[0] || q in requests[1..];
      if requests[0].participant.id != id then [requests[0]] + rest else rest
  }

  /**
   * The numbers a confirmation records. A request with numbers keeps them;
   * one without numbers gets a fallback allocation of as many numbers as it
   * holds, and the confirmation aborts when that allocation is short.
   */
  function ConfirmAllocation(request: Request): Option<seq<int>>
  {
    var held := request.participant.numbers;
    if |held| > 0 then Some(held)
    else
      var snapshot := request.raffle;
      var numbers := Allocate(snapshot.total, snapshot.sold, snapshot.unavailable, snapshot.pending, |held|);
      if |numbers| < |held| then None else Some(numbers)
  }

  /**
   * The fallback is sized by the length of the empty list it replaces, so it
   * allocates nothing and never aborts: a confirmation always records the
   * request's own numbers.
   */
  lemma ConfirmAllocationIsHeld(request: Request)
    ensures ConfirmAllocation(request) == Some(request.participant.numbers)
  {
  }

  /** The participant row a request was loaded from is still in the table and still pending. */
  ghost predicate StillPending(ps: seq<Participant>, request: Request)
  {
    exists k :: 0 <= k < |ps| && ps[k] == request.participant && ps[k].state == Pending
  }

  /** The participant row a request was loaded from is still in the table and not rejected. */
  ghost predicate StillLive(ps: seq<Participant>, request: Request)
  {
    exists k :: 0 <= k < |ps| && ps[k] == request.participant && Live(ps[k])
  }

  /** The panel's component state. */
  class Panel {
    var rifas: seq<RaffleRow>
    var requests: seq<Request>
    var rouletteRaffle: Option<RaffleRow>
    var entries: seq<Entry>
    var winner: Option<Entry>

    /** The panel once its effects have loaded the raffles and the pending requests. */
    constructor (rifas: seq<RaffleRow>, requests: seq<Request>)
      ensures this.rifas == rifas && this.requests == requests
      ensures rouletteRaffle == None && entries == [] && winner == None
    {
      this.rifas := rifas;
      this.requests := requests;
      rouletteRaffle := None;
      entries := [];
      winner := None;
    }

    /**
     * `handleConfirmarSolicitud`. In order: the participant row is marked
     * confirmed with its numbers, the raffle is read, its pending list loses
     * those numbers and its sold list gains them, and the request leaves the
     * list. A failure at any step skips the later ones.
     */
    method ConfirmRequest(store: Store, request: Request, approved: bool,
                          participantUpdateFails: bool, raffleReadFails: bool, raffleUpdateFails: bool)
      returns (outcome: AdminOutcome)
      requires store.Valid()
      modifies this`requests, store`participants, store`raffles
      ensures store.Valid()
      ensures outcome == Cancelled <==> !approved
      ensures outcome != NotEnoughNumbers
      ensures var p := request.participant;
              && (approved && !participantUpdateFails ==>
                    store.participants == ConfirmRows(old(store.participants), p.id, p.numbers))
              && (!approved || participantUpdateFails ==> store.participants == old(store.participants))
      ensures var p := request.participant;
              outcome.Done? <==> approved && !participantUpdateFails && !raffleReadFails && !raffleUpdateFails
                                 && p.raffleId in old(store.raffles)
      ensures var p := request.participant;
              outcome.Done? ==>
                var row := old(store.raffles)[p.raffleId];
                && outcome.numbers == p.numbers
                && store.raffles == old(store.raffles)[p.raffleId := row.(sold := Union(row.sold, p.numbers),
                                                                          pending := Exclude(row.pending, Elems(p.numbers)))]
                && requests == DropRequest(old(requests), p.id)
      ensures !outcome.Done? ==> store.raffles == old(store.raffles) && requests == old(requests)
      ensures outcome.Done? && old(store.Sound()) && old(StillPending(store.participants, request)) ==> store.Sound()
    {
      if !approved {
        return Cancelled;
      }
      ConfirmAllocationIsHeld(request);
      var allocation := ConfirmAllocation(request);
      var numbers := allocation.value;
      var p := request.participant;
      if participantUpdateFails {
        return Failed;
      }
      ghost var oldParticipants := store.participants;
      store.participants := ConfirmRows(store.participants, p.id, numbers);
      if raffleReadFails || p.raffleId !in store.raffles {
        return Failed;
      }
      var row := store.raffles[p.raffleId];
      if raffleUpdateFails {
        return Failed;
      }
      ghost var oldRaffles := store.raffles;
      store.raffles := store.raffles[p.raffleId := row.(sold := Union(row.sold, numbers),
                                                        pending := Exclude(row.pending, Elems(numbers)))];
      requests := DropRequest(requests, p.id);
      if Consistent(oldRaffles, oldParticipants) && StillPending(oldParticipants, request) {
        var k :| 0 <= k < |oldParticipants| && oldParticipants[k] == p && oldParticipants[k].state == Pending;
        ConfirmKeepsConsistent(oldRaffles, oldParticipants, k, numbers);
      }
      return Done(numbers);
    }

    /**
     * `handleRechazarSolicitud`. In order: the participant row is marked
     * rejected, the raffle is read, its pending list loses the request's
     * numbers, and the request leaves the list. The sold list is never
     * touched.
     */
    method RejectRequest(store: Store, request: Request, approved: bool,
                         participantUpdateFails: bool, raffleReadFails: bool, raffleUpdateFails: bool)
      returns (outcome: AdminOutcome)
      requires store.Valid()
      modifies this`requests, store`participants, store`raffles
      ensures store.Valid()
      ensures outcome == Cancelled <==> !approved
      ensures outcome != NotEnoughNumbers
      ensures var p := request.participant;
              && (approved && !participantUpdateFails ==> store.participants == RejectRows(old(store.participants), p.id))
              && (!approved || participantUpdateFails ==> store.participants == old(store.participants))
      ensures var p := request.participant;
              outcome.Done? <==> approved && !participantUpdateFails && !raffleReadFails && !raffleUpdateFails
                                 && p.raffleId in old(store.raffles)
      ensures var p := request.participant;
              outcome.Done? ==>
                var row := old(store.raffles)[p.raffleId];
                && outcome.numbers == p.numbers
                && store.raffles == old(store.raffles)[p.raffleId := row.(pending := Exclude(row.pending, Elems(p.numbers)))]
                && requests == DropRequest(old(requests), p.id)
      ensures !outcome.Done? ==> store.raffles == old(store.raffles) && requests == old(requests)
      ensures outcome.Done? && old(store.Sound()) && old(StillLive(store.participants, request)) ==> store.Sound()
    {
      if !approved {
        return Cancelled;
      }
      var p := request.participant;
      if participantUpdateFails {
        return Failed;
      }
      ghost var oldParticipants := store.participants;
      store.participants := RejectRows(store.participants, p.id);
      if raffleReadFails || p.raffleId !in store.raffles {
        return Failed;
      }
      var row := store.raffles[p.raffleId];
      if raffleUpdateFails {
        return Failed;
      }
      ghost var oldRaffles := store.raffles;
      store.raffles := store.raffles[p.raffleId := row.(pending := Exclude(row.pending, Elems(p.numbers)))];
      requests := DropRequest(requests, p.id);
      if Consistent(oldRaffles, oldParticipants) && StillLive(oldParticipants, request) {
        var k :| 0 <= k < |oldParticipants| && oldParticipants[k] == p && Live(oldParticipants[k]);
        RejectKeepsConsistent(oldRaffles, oldParticipants, k, p.numbers);
      }
      return Done(p.numbers);
    }

    /**
     * `handleToggleRifaStatus`. On confirmation the new status is written to
     * the raffle's row (a row that does not exist is simply not updated) and,
     * if that succeeds, to the matching entries of the loaded list.
     */
    method ToggleStatus(store: Store, id: int, current: string, approved: bool, updateFails: bool)
      returns (written: Option<string>)
      modifies this`rifas, store`raffles
      ensures !approved || updateFails ==> written == None && rifas == old(rifas) && store.raffles == old(store.raffles)
      ensures approved && !updateFails ==>
                && written == Some(NextStatus(current))
                && rifas == SetStatus(old(rifas), id, NextStatus(current))
                && store.raffles == if id in old(store.raffles)
                                    then old(store.raffles)[id := old(store.raffles)[id].(status := NextStatus(current))]
                                    else old(store.raffles)
    {
      var next := NextStatus(current);
      if !approved || updateFails {
        return None;
      }
      if id in store.raffles {
        store.raffles := store.raffles[id := store.raffles[id].(status := next)];
      }
      rifas := SetStatus(rifas, id, next);
      return Some(next);
    }

    /**
     * `handleSelectRifaForRoulette`: the roulette is cleared, then filled
     * with one entry per number of every confirmed participant of the chosen
     * raffle.
     */
    method SelectForRoulette(store: Store, id: int, fetchFails: bool)
      modifies this`rouletteRaffle, this`entries, this`winner
      ensures winner == None
      ensures rouletteRaffle == FindRaffle(rifas, id)
      ensures entries == if rouletteRaffle.Some? && !fetchFails then Flatten(ConfirmedOf(store.participants, id)) else []
      ensures |entries| == if rouletteRaffle.Some? && !fetchFails then Bought(ConfirmedOf(store.participants, id)) else 0
      ensures forall e :: e in entries ==> e.owner in store.participants && e.owner.state == Confirmed
                                           && e.owner.raffleId == id && e.number in e.owner.numbers
    {
      rouletteRaffle, entries, winner := None, [], None;
      var found := FindRaffle(rifas, id);
      if found.Some? {
        rouletteRaffle := found;
        if fetchFails {
          return;
        }
        var confirmed := ConfirmedOf(store.participants, id);
        FlattenSpec(confirmed);
        entries := Flatten(confirmed);
      }
    }

    /**
     * `handleSpinRoulette` with the random index as a parameter: nothing is
     * drawn from an empty list; otherwise the entry at the index wins.
     */
    method Spin(index: nat) returns (drawn: Option<Entry>)
      requires entries != [] ==> index < |entries|
      modifies this`winner
      ensures entries == [] ==> drawn == None && winner == old(winner)
      ensures entries != [] ==> drawn == Some(entries[index]) && winner == drawn && drawn.value in entries
    {
      if entries == [] {
        return None;
      }
      winner := Some(entries[index]);
      return winner;
    }
  }
}
