/**
 * The records the screens receive from the backend (`Tramo`, `Servicio`,
 * `Cliente`, `Empleado`, `Peluqueria`), reduced to the fields the booking
 * and cancellation logic reads.
 *
 * Times of day are minutes since midnight and dates are day numbers: the
 * source keeps them as zero-padded "HH:MM" and "YYYY-MM-DD" strings and
 * compares them with `localeCompare`, which orders such strings exactly as
 * the numbers they denote.
 */
module Model {
  import opened Common
  import Sorting

  datatype Peluqueria = Peluqueria(nombre: string)

  datatype Empleado = Empleado(nombre: string, peluqueria: Option<Peluqueria>)

  datatype Cliente = Cliente(id: Option<int>)

  /** A service of the catalogue; `numTramos` is how many consecutive slots it takes. */
  datatype Servicio = Servicio(id: Option<int>, nombre: string, precio: int, numTramos: int)

  /**
   * A slot. `citaId` and `reservaId` are not declared by the source's
   * interface but are read by both screens, so the record carries them.
   */
  datatype Tramo = Tramo(
    id: Option<int>,
    fecha: int,
    horaInicio: int,
    horaFin: int,
    disponible: bool,
    empleado: Option<Empleado>,
    cliente: Option<Cliente>,
    servicio: Option<Servicio>,
    citaId: Option<int>,
    reservaId: Option<string>)

  /** `if (tramo.citaId)`: the slot belongs to an appointment. */
  predicate HasCita(t: Tramo) {
    NumTruthy(t.citaId)
  }

  /** The comparator `(a, b) => a.horaInicio.localeCompare(b.horaInicio)`, read as "a comes no later than b". */
  predicate HoraLeq(a: Tramo, b: Tramo) {
    a.horaInicio <= b.horaInicio
  }

  lemma HoraLeqIsTotalOrder()
    ensures Sorting.Total(HoraLeq) && Sorting.Transitive(HoraLeq)
    ensures forall t :: HoraLeq(t, t)
  {
  }

  /** Slots ordered by start time: a reordering of the input, earliest first. */
  function OrdenarPorHora(ts: seq<Tramo>): (r: seq<Tramo>)
    ensures multiset(r) == multiset(ts) && |r| == |ts|
    ensures forall i, j :: 0 <= i <= j < |r| ==> r[i].horaInicio <= r[j].horaInicio
  {
    HoraLeqIsTotalOrder();
    Sorting.SortSorted(ts, HoraLeq);
    var r := Sorting.Sort(ts, HoraLeq);
    assert forall i, j :: 0 <= i <= j < |r| ==> HoraLeq(r[i], r[j]) by {
      forall i, j | 0 <= i <= j < |r| ensures HoraLeq(r[i], r[j]) {
        Sorting.SortedPairwise(r, HoraLeq, i, j);
      }
    }
    r
  }

  /**
   * `Array.sort` is stable: slots with the same start time keep the order in
   * which the backend sent them.
   */
  lemma OrdenarPorHoraEstable(ts: seq<Tramo>, x: Tramo)
    ensures Sorting.Equivalentes(OrdenarPorHora(ts), HoraLeq, x) == Sorting.Equivalentes(ts, HoraLeq, x)
  {
    HoraLeqIsTotalOrder();
    Sorting.SortEstable(ts, HoraLeq, x);
  }
}
