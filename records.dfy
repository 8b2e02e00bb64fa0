/**
 * The two database tables the components read and write: `rifas` (one row
 * per raffle, with its three number lists) and `participantes` (one row per
 * purchase request), and the invariant that ties a request to the numbers its
 * raffle holds for it.
 */
module Records {
  import opened NumberSets

  /** A participant's `estado`: 'pendiente', 'confirmado' or 'rechazado'. */
  datatype RequestState = Pending | Confirmed | Rejected

  /**
   * A row of `rifas`. `price` is `precio_por_numero`, `total` is
   * `total_numeros`, `status` is `estado` ('activa', 'culminada' or whatever
   * the table holds), and the lists are `numeros_vendidos`,
   * `numeros_no_disponibles` and `numeros_pendientes`.
   */
  datatype RaffleRow = RaffleRow(
    id: int, title: string, description: string, image: string,
    price: int, total: int, drawDate: string, status: string,
    sold: seq<int>, unavailable: seq<int>, pending: seq<int>)

  /** A row of `participantes`: the buyer, the numbers (`numeros_comprados`) and the request state. */
  datatype Participant = Participant(
    id: int, raffleId: int, name: string, phone: string, email: string, idNumber: string,
    numbers: seq<int>, state: RequestState, purchasedAt: string)

  predicate RowValid(r: RaffleRow)
  {
    Partitioned(r.total, r.sold, r.unavailable, r.pending)
  }

  predicate Live(p: Participant)
  {
    p.state != Rejected
  }

  /**
   * A live request's numbers are held for it by its raffle: in the pending
   * list while it is pending, in the sold list once it is confirmed.
   */
  predicate Backed(raffles: map<int, RaffleRow>, p: Participant)
  {
    Live(p) ==>
      && p.raffleId in raffles
      && Elems(p.numbers) <= Elems(if p.state == Pending then raffles[p.raffleId].pending
                                   else raffles[p.raffleId].sold)
  }

  /**
   * The inventory invariant: every raffle's lists are partitioned, every
   * live request is backed by its raffle, and two live requests of the same
   * raffle never hold the same number.
   */
  ghost predicate Consistent(raffles: map<int, RaffleRow>, ps: seq<Participant>)
  {
    && (forall id :: id in raffles ==> RowValid(raffles[id]))
    && (forall i :: 0 <= i < |ps| ==> Backed(raffles, ps[i]))
    && (forall i, j :: 0 <= i < j < |ps| && Live(ps[i]) && Live(ps[j]) && ps[i].raffleId == ps[j].raffleId
          ==> Elems(ps[i].numbers) !! Elems(ps[j].numbers))
  }

  /** Primary keys of `rifas`: each row sits under its own id, below the next id to hand out. */
  ghost predicate Keyed(raffles: map<int, RaffleRow>, nextId: int)
  {
    forall id :: id in raffles ==> raffles[id].id == id && id < nextId
  }

  /** Primary keys of `participantes`: distinct and below the next id to hand out. */
  ghost predicate IdsFresh(ps: seq<Participant>, nextId: int)
  {
    && (forall i :: 0 <= i < |ps| ==> ps[i].id < nextId)
    && (forall i, j :: 0 <= i < j < |ps| ==> ps[i].id != ps[j].id)
  }

  /** `update({ estado: 'confirmado', numeros_comprados: numbers }).eq('id', id)` on `participantes`. */
  function ConfirmRows(ps: seq<Participant>, id: int, numbers: seq<int>): (r: seq<Participant>)
    ensures |r| == |ps|
    ensures forall i :: 0 <= i < |ps| ==> r[i] == if ps[i].id == id then ps[i].(state := Confirmed, numbers := numbers) else ps[i]
  {
    seq(|ps|, i requires 0 <= i < |ps| => if ps[i].id == id then ps[i].(state := Confirmed, numbers := numbers) else ps[i])
  }

  /** `update({ estado: 'rechazado' }).eq('id', id)` on `participantes`. */
  function RejectRows(ps: seq<Participant>, id: int): (r: seq<Participant>)
    ensures |r| == |ps|
    ensures forall i :: 0 <= i < |ps| ==> r[i] == if ps[i].id == id then ps[i].(state := Rejected) else ps[i]
  {
    seq(|ps|, i requires 0 <= i < |ps| => if ps[i].id == id then ps[i].(state := Rejected) else ps[i])
  }

  /**
   * A reservation that appends a fresh allocation to its raffle's pending
   * list and inserts a pending request holding exactly those numbers keeps
   * the inventory consistent.
   */
  lemma ReserveKeepsConsistent(raffles: map<int, RaffleRow>, ps: seq<Participant>, quantity: nat, p: Participant)
    requires Consistent(raffles, ps)
    requires p.raffleId in raffles && p.state == Pending
    requires var row := raffles[p.raffleId];
             p.numbers == Allocate(row.total, row.sold, row.unavailable, row.pending, quantity)
    ensures var row := raffles[p.raffleId];
            Consistent(raffles[p.raffleId := row.(pending := row.pending + p.numbers)], ps + [p])
  {
    var row := raffles[p.raffleId];
    var a := p.numbers;
    var row' := row.(pending := row.pending + a);
    var raffles' := raffles[p.raffleId := row'];
    var ps' := ps + [p];
    ReserveKeepsPartition(row.total, row.sold, row.unavailable, row.pending, quantity);
    assert Elems(row'.pending) == Elems(row.pending) + Elems(a);
    forall i | 0 <= i < |ps'| ensures Backed(raffles', ps'[i]) {
      if i < |ps| {
        assert Backed(raffles, ps[i]);
      }
    }
    forall i, j | 0 <= i < j < |ps'| && Live(ps'[i]) && Live(ps'[j]) && ps'[i].raffleId == ps'[j].raffleId
      ensures Elems(ps'[i].numbers) !! Elems(ps'[j].numbers)
    {
      if j == |ps| {
        assert Backed(raffles, ps[i]);
        assert forall x :: x in a ==> x !in row.sold && x !in row.pending;
      }
    }
  }

  /** One request after a confirmation of request `k`: still backed by the updated raffle. */
  lemma ConfirmBacksOther(raffles: map<int, RaffleRow>, q: Participant, p: Participant, moved: seq<int>)
    requires Backed(raffles, q) && Backed(raffles, p) && p.state == Pending
    requires Elems(moved) <= Elems(p.numbers)
    requires Live(q) && q.raffleId == p.raffleId ==> Elems(q.numbers) !! Elems(p.numbers)
    requires NoDups(raffles[p.raffleId].sold)
    ensures var row := raffles[p.raffleId];
            Backed(raffles[p.raffleId := row.(sold := Union(row.sold, moved), pending := Exclude(row.pending, Elems(moved)))], q)
  {
    var row := raffles[p.raffleId];
    UnionSpec(row.sold, moved);
    if Live(q) && q.raffleId == p.raffleId {
      assert Elems(row.sold) <= Elems(Union(row.sold, moved));
    }
  }

  /** Row `i` of the participants after a confirmation of request `k` is backed by the updated raffles. */
  lemma ConfirmBacksRow(raffles: map<int, RaffleRow>, ps: seq<Participant>, k: nat, moved: seq<int>, i: nat)
    requires Consistent(raffles, ps) && (forall i, j :: 0 <= i < j < |ps| ==> ps[i].id != ps[j].id)
    requires k < |ps| && ps[k].state == Pending && i < |ps|
    requires Elems(moved) <= Elems(ps[k].numbers)
    ensures ps[k].raffleId in raffles
    ensures var row := raffles[ps[k].raffleId];
            Backed(raffles[ps[k].raffleId := row.(sold := Union(row.sold, moved), pending := Exclude(row.pending, Elems(moved)))],
                   ConfirmRows(ps, ps[k].id, moved)[i])
  {
    assert Backed(raffles, ps[k]);
    var row := raffles[ps[k].raffleId];
    if i == k {
      UnionSpec(row.sold, moved);
    } else {
      assert ps[i].id != ps[k].id by {
        if i < k { assert ps[i].id != ps[k].id; } else { assert ps[k].id != ps[i].id; }
      }
      assert Live(ps[i]) && ps[i].raffleId == ps[k].raffleId ==> Elems(ps[i].numbers) !! Elems(ps[k].numbers);
      ConfirmBacksOther(raffles, ps[i], ps[k], moved);
    }
  }

  /**
   * Confirming a live pending request, with numbers it already holds,
   * moves them from its raffle's pending list to the sold list and keeps the
   * inventory consistent.
   */
  lemma ConfirmKeepsConsistent(raffles: map<int, RaffleRow>, ps: seq<Participant>, k: nat, moved: seq<int>)
    requires Consistent(raffles, ps) && (forall i, j :: 0 <= i < j < |ps| ==> ps[i].id != ps[j].id)
    requires k < |ps| && ps[k].state == Pending
    requires Elems(moved) <= Elems(ps[k].numbers)
    ensures ps[k].raffleId in raffles
    ensures var row := raffles[ps[k].raffleId];
            Consistent(raffles[ps[k].raffleId := row.(sold := Union(row.sold, moved), pending := Exclude(row.pending, Elems(moved)))],
                       ConfirmRows(ps, ps[k].id, moved))
  {
    assert Backed(raffles, ps[k]);
    var rid := ps[k].raffleId;
    var row := raffles[rid];
    var row' := row.(sold := Union(row.sold, moved), pending := Exclude(row.pending, Elems(moved)));
    var raffles' := raffles[rid := row'];
    var ps' := ConfirmRows(ps, ps[k].id, moved);
    ConfirmKeepsPartition(row.total, row.sold, row.unavailable, row.pending, moved);
    assert forall id :: id in raffles' ==> RowValid(raffles'[id]);
    forall i | 0 <= i < |ps'| ensures Backed(raffles', ps'[i]) {
      ConfirmBacksRow(raffles, ps, k, moved, i);
    }
    forall i, j | 0 <= i < j < |ps'| && Live(ps'[i]) && Live(ps'[j]) && ps'[i].raffleId == ps'[j].raffleId
      ensures Elems(ps'[i].numbers) !! Elems(ps'[j].numbers)
    {
      assert Elems(ps'[i].numbers) <= Elems(ps[i].numbers);
      assert Elems(ps'[j].numbers) <= Elems(ps[j].numbers);
    }
  }

  /**
   * Confirmation writes the participant row first and the raffle afterwards.
   * When the raffle read or write fails in between, a consistent inventory
   * is left with a confirmed request whose numbers are pending and not sold.
   */
  lemma HalfConfirmBreaksConsistent(raffles: map<int, RaffleRow>, ps: seq<Participant>, k: nat)
    requires Consistent(raffles, ps)
    requires k < |ps| && ps[k].state == Pending && ps[k].numbers != []
    ensures !Consistent(raffles, ConfirmRows(ps, ps[k].id, ps[k].numbers))
  {
    assert Backed(raffles, ps[k]);
    var row := raffles[ps[k].raffleId];
    var x := ps[k].numbers[0];
    assert x in Elems(row.pending);
    assert x !in Elems(row.sold);
    var q := ConfirmRows(ps, ps[k].id, ps[k].numbers)[k];
    assert q.state == Confirmed && x in Elems(q.numbers);
    assert !Backed(raffles, q);
  }

  /**
   * Rejecting a live request, releasing numbers it holds from its raffle's
   * pending list, keeps the inventory consistent.
   */
  lemma RejectKeepsConsistent(raffles: map<int, RaffleRow>, ps: seq<Participant>, k: nat, released: seq<int>)
    requires Consistent(raffles, ps) && (forall i, j :: 0 <= i < j < |ps| ==> ps[i].id != ps[j].id)
    requires k < |ps| && Live(ps[k])
    requires Elems(released) <= Elems(ps[k].numbers)
    ensures ps[k].raffleId in raffles
    ensures var row := raffles[ps[k].raffleId];
            Consistent(raffles[ps[k].raffleId := row.(pending := Exclude(row.pending, Elems(released)))],
                       RejectRows(ps, ps[k].id))
  {
    assert Backed(raffles, ps[k]);
    var rid := ps[k].raffleId;
    var row := raffles[rid];
    var row' := row.(pending := Exclude(row.pending, Elems(released)));
    var raffles' := raffles[rid := row'];
    var ps' := RejectRows(ps, ps[k].id);
    RejectKeepsPartition(row.total, row.sold, row.unavailable, row.pending, released);
    forall i | 0 <= i < |ps'| ensures Backed(raffles', ps'[i]) {
      assert Backed(raffles, ps[i]);
      if i != k {
        assert ps[i].id != ps[k].id by {
          if i < k { assert ps[i].id != ps[k].id; } else { assert ps[k].id != ps[i].id; }
        }
        if Live(ps[i]) && ps[i].raffleId == rid {
          assert Elems(ps[i].numbers) !! Elems(ps[k].numbers) by {
            if i < k { assert Elems(ps[i].numbers) !! Elems(ps[k].numbers); }
            else { assert Elems(ps[k].numbers) !! Elems(ps[i].numbers); }
          }
        }
      }
    }
  }

  /** The database: the `rifas` table keyed by id and the `participantes` table in insertion order. */
  class Store {
    var raffles: map<int, RaffleRow>
    var participants: seq<Participant>
    var nextRaffleId: int
    var nextParticipantId: int

    ghost predicate Valid()
      reads this
    {
      Keyed(raffles, nextRaffleId) && IdsFresh(participants, nextParticipantId)
    }

    /** The key invariants together with the inventory invariant. */
    ghost predicate Sound()
      reads this
    {
      Valid() && Consistent(raffles, participants)
    }

    constructor ()
      ensures Sound()
      ensures raffles == map[] && participants == []
    {
      raffles := map[];
      participants := [];
      nextRaffleId := 1;
      nextParticipantId := 1;
    }
  }
}
