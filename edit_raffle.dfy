/**
 * The edit page (`EditarRifaForm`): it loads a raffle's metadata into the
 * form and writes the six fields back; the number lists are never part of
 * the update.
 */
module EditRaffle {
  import opened JsValues
  import opened NumberSets
  import opened Records
  import opened RaffleForm

  /** The form filled from a row read from `rifas`. */
  function FormOf(row: RaffleRow): FormData
  {
    FormData(row.title, row.description, row.image, row.price, row.total, row.drawDate)
  }

  /** The row after `update({ titulo, descripcion, imagen, precio_por_numero, total_numeros, fecha_sorteo })`. */
  function ApplyEdit(row: RaffleRow, f: FormData): (r: RaffleRow)
    ensures r.id == row.id && r.status == row.status
    ensures r.sold == row.sold && r.unavailable == row.unavailable && r.pending == row.pending
    ensures FormOf(r) == f
  {
    row.(title := f.title, description := f.description, image := f.image,
         price := f.price, total := f.total, drawDate := f.drawDate)
  }

  /** Submitting the form as loaded writes back the row unchanged. */
  lemma UnchangedEditIsIdentity(row: RaffleRow)
    ensures ApplyEdit(row, FormOf(row)) == row
  {
  }

  /** Every number of the three lists lies within a capacity. */
  predicate FitsCapacity(row: RaffleRow, total: int)
  {
    InRange(row.sold, total) && InRange(row.unavailable, total) && InRange(row.pending, total)
  }

  /** An edit keeps a row partitioned exactly when its numbers fit the new capacity. */
  lemma EditKeepsRowValid(row: RaffleRow, f: FormData)
    requires RowValid(row)
    ensures RowValid(ApplyEdit(row, f)) <==> FitsCapacity(row, f.total)
  {
  }

  /**
   * The validation only asks for a positive capacity, so a valid edit can
   * shrink a raffle below a number it has already sold: capacity 5 with 5
   * sold, edited to capacity 3, leaves 5 out of range.
   */
  lemma EditCanLeaveSoldOutOfRange()
    ensures var row := RaffleRow(1, "Rifa", "Premio", "img.png", 10, 5, "2025-01-01", "activa", [5], [], []);
            var f := FormOf(row).(total := 3);
            RowValid(row) && FormValid(f) && !RowValid(ApplyEdit(row, f))
  {
    var row := RaffleRow(1, "Rifa", "Premio", "img.png", 10, 5, "2025-01-01", "activa", [5], [], []);
    assert 5 in ApplyEdit(row, FormOf(row).(total := 3)).sold;
  }

  /** An edit whose capacity fits the raffle's numbers keeps the inventory consistent. */
  lemma EditKeepsConsistent(raffles: map<int, RaffleRow>, ps: seq<Participant>, id: int, f: FormData)
    requires Consistent(raffles, ps) && id in raffles && FitsCapacity(raffles[id], f.total)
    ensures Consistent(raffles[id := ApplyEdit(raffles[id], f)], ps)
  {
    var raffles' := raffles[id := ApplyEdit(raffles[id], f)];
    forall i | 0 <= i < |ps| ensures Backed(raffles', ps[i]) {
      assert Backed(raffles, ps[i]);
    }
  }

  /** The edit page's component state for the raffle `id` of the route. */
  class EditPage {
    const id: int
    var form: FormData
    var loadFailed: bool
    var errors: map<Field, string>

    /**
     * The page once `fetchRifa` has finished. `.single()` reports an error
     * when no row matches, so a missing raffle counts as a failed load and
     * the form keeps its blank initial values.
     */
    constructor (store: Store, id: int, fetchFails: bool)
      ensures this.id == id && errors == map[]
      ensures loadFailed <==> fetchFails || id !in store.raffles
      ensures loadFailed ==> form == FormData("", "", "", 0, 0, "") && !FormValid(form)
      ensures !loadFailed ==> form == FormOf(store.raffles[id])
    {
      this.id := id;
      errors := map[];
      if fetchFails || id !in store.raffles {
        loadFailed := true;
        form := FormData("", "", "", 0, 0, "");
      } else {
        loadFailed := false;
        form := FormOf(store.raffles[id]);
      }
    }

    /** `handleChange` on one input. */
    method HandleChange(field: Field, value: string)
      requires IsNumeric(field) ==> IsIntegerText(value)
      modifies this`form
      ensures form == Change(old(form), field, value)
    {
      form := Change(form, field, value);
    }

    /**
     * `handleSubmit`: only a valid form is written, and only its six fields;
     * an update that matches no row changes nothing and reports no error.
     */
    method Submit(store: Store, updateFails: bool) returns (updated: bool)
      requires store.Valid()
      modifies this`errors, store`raffles
      ensures store.Valid()
      ensures Reports(errors, form)
      ensures updated <==> FormValid(form) && !updateFails
      ensures !updated ==> store.raffles == old(store.raffles)
      ensures updated ==> store.raffles == if id in old(store.raffles)
                                           then old(store.raffles)[id := ApplyEdit(old(store.raffles)[id], form)]
                                           else old(store.raffles)
      ensures old(store.Sound()) && (id in old(store.raffles) ==> FitsCapacity(old(store.raffles)[id], form.total))
              ==> store.Sound()
    {
      var ok;
      ok, errors := Validate(form);
      if !ok || updateFails {
        return false;
      }
      if id in store.raffles {
        ghost var before := store.raffles;
        store.raffles := store.raffles[id := ApplyEdit(store.raffles[id], form)];
        if Consistent(before, store.participants) && FitsCapacity(before[id], form.total) {
          EditKeepsConsistent(before, store.participants, id, form);
        }
      }
      return true;
    }
  }
}
