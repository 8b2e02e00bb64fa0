/**
 * The create page (`CrearRifaForm`): the form starts at price 50 and
 * capacity 100, and a valid submission inserts a row whose number lists are
 * all empty.
 */
module CreateRaffle {
  import opened JsValues
  import opened NumberSets
  import opened Records
  import opened RaffleForm

  /**
   * The row the insert produces. The payload carries only the six form
   * fields; the id, the status and the three lists come from the table's
   * defaults, which this model takes to be the next id, `status` and empty
   * lists.
   */
  function NewRow(id: int, f: FormData, status: string): RaffleRow
  {
    RaffleRow(id, f.title, f.description, f.image, f.price, f.total, f.drawDate, status, [], [], [])
  }

  /** A new raffle has sold nothing, holds nothing back, and offers every number from 1 to its capacity. */
  lemma NewRaffleAllFree(id: int, f: FormData, status: string)
    requires FormValid(f)
    ensures var row := NewRow(id, f, status);
            && RowValid(row)
            && row.sold == [] && row.unavailable == [] && row.pending == []
            && |Available(row.total, row.sold, row.unavailable, row.pending)| == f.total
            && forall x :: x in Available(row.total, row.sold, row.unavailable, row.pending) <==> 1 <= x <= f.total
  {
    AvailableSize(f.total, [], [], []);
  }

  /** Adding a partitioned row under an id no row uses keeps the inventory consistent. */
  lemma AddRaffleKeepsConsistent(raffles: map<int, RaffleRow>, ps: seq<Participant>, row: RaffleRow)
    requires Consistent(raffles, ps) && row.id !in raffles && RowValid(row)
    ensures Consistent(raffles[row.id := row], ps)
  {
    forall i | 0 <= i < |ps| ensures Backed(raffles[row.id := row], ps[i]) {
      assert Backed(raffles, ps[i]);
    }
  }

  /** The create page's component state. */
  class CreatePage {
    var form: FormData
    var errors: map<Field, string>

    constructor ()
      ensures form == FormData("", "", "", 50, 100, "") && errors == map[]
      ensures !FormValid(form)
    {
      form := FormData("", "", "", 50, 100, "");
      errors := map[];
    }

    /** `handleChange` on one input. */
    method HandleChange(field: Field, value: string)
      requires IsNumeric(field) ==> IsIntegerText(value)
      modifies this`form
      ensures form == Change(old(form), field, value)
    {
      form := Change(form, field, value);
    }

    /**
     * `handleSubmit`: validation first; only a valid form is inserted, and a
     * failed insert leaves the table as it was.
     */
    method Submit(store: Store, insertFails: bool, defaultStatus: string) returns (created: Option<int>)
      requires store.Valid()
      modifies this`errors, store`raffles, store`nextRaffleId
      ensures store.Valid()
      ensures Reports(errors, form)
      ensures created.Some? <==> FormValid(form) && !insertFails
      ensures created.None? ==> store.raffles == old(store.raffles) && store.nextRaffleId == old(store.nextRaffleId)
      ensures created.Some? ==>
                && created.value == old(store.nextRaffleId)
                && created.value !in old(store.raffles)
                && store.raffles == old(store.raffles)[created.value := NewRow(created.value, form, defaultStatus)]
                && store.nextRaffleId == old(store.nextRaffleId) + 1
      ensures old(store.Sound()) ==> store.Sound()
    {
      var ok;
      ok, errors := Validate(form);
      if !ok || insertFails {
        return None;
      }
      var id := store.nextRaffleId;
      var row := NewRow(id, form, defaultStatus);
      ghost var before := store.raffles;
      assert id !in before;
      store.raffles := store.raffles[id := row];
      store.nextRaffleId := id + 1;
      if Consistent(before, store.participants) {
        NewRaffleAllFree(id, form, defaultStatus);
        AddRaffleKeepsConsistent(before, store.participants, row);
      }
      return Some(id);
    }
  }
}
