/**
 * The client's "cancel a booking" screen: the booked slots received from
 * the backend are filtered to the client's own, grouped into appointments
 * by `reservaId`, summarised one line per appointment and ordered by date
 * and start time. Cancelling sends the id of an appointment's first slot.
 */
module CancelarReserva {
  import opened Common
  import opened Model
  import opened Auth
  import Sorting

  const MsgSinReservas: string := "No tienes reservas activas."
  const MsgErrorCarga: string := "Error al cargar tus reservas."
  const MsgSinCliente: string := "No se pudo identificar al cliente."
  const MsgCancelada: string := "Reserva cancelada con éxito."
  const PrefijoErrorCancelar: string := "Error al cancelar la reserva: "
  const SinPeluqueria: string := "No especificada"
  const SinEmpleado: string := "No especificado"
  const SinServicio: string := "Servicio no especificado"

  // ---------------------------------------------------------------- filter

  /** A slot booked by this client for a service with an id. */
  predicate EsReservaDe(t: Tramo, clienteId: int) {
    !t.disponible &&
    t.cliente.Some? && t.cliente.value.id == Some(clienteId) &&
    t.servicio.Some? && NumTruthy(t.servicio.value.id)
  }

  /** The filter of `cargarReservasCliente`: keeps exactly the client's booked slots, in order. */
  function Filtrar(ts: seq<Tramo>, clienteId: int): (r: seq<Tramo>)
    ensures forall t :: t in r <==> t in ts && EsReservaDe(t, clienteId)
    ensures multiset(r) <= multiset(ts)
    ensures forall t :: t in ts && EsReservaDe(t, clienteId) ==> multiset(r)[t] == multiset(ts)[t]
  {
    if ts == [] then []
    else
      assert ts == [ts[0]] + ts[1..];
      (if EsReservaDe(ts[0], clienteId) then [ts[0]] else []) + Filtrar(ts[1..], clienteId)
  }

  /** The filter keeps the input's order: filtering a concatenation concatenates the filtered parts. */
  lemma {:induction false} FiltrarConcatena(a: seq<Tramo>, b: seq<Tramo>, clienteId: int)
    ensures Filtrar(a + b, clienteId) == Filtrar(a, clienteId) + Filtrar(b, clienteId)
  {
    if a == [] {
      assert a + b == b;
    } else {
      assert (a + b)[0] == a[0];
      assert (a + b)[1..] == a[1..] + b;
      FiltrarConcatena(a[1..], b, clienteId);
    }
  }

  // -------------------------------------------------------------- grouping

  /**
   * A group key: the slot's `reservaId`, or for a slot without one the
   * synthetic key `'S/' + fecha + '_' + horaInicio + '_' + contador`.
   */
  datatype Clave = Reserva(id: string) | SinReserva(fecha: int, hora: int, contador: int)

  /**
   * The grouping under construction: the keys in insertion order (the
   * iteration order of a JavaScript `Map`), the group of each key, and the
   * counter for slots without `reservaId`.
   */
  datatype Agrupacion = Agrupacion(orden: seq<Clave>, grupos: map<Clave, seq<Tramo>>, contador: int)

  function ClaveDe(t: Tramo, contador: int): Clave {
    if StrTruthy(t.reservaId) then Reserva(t.reservaId.value) else SinReserva(t.fecha, t.horaInicio, contador)
  }

  /** One step of the `forEach`: the slot joins its key's group, opening it if new. */
  function Anadir(a: Agrupacion, t: Tramo): (b: Agrupacion)
    ensures ClaveDe(t, a.contador) in b.grupos && t in b.grupos[ClaveDe(t, a.contador)]
    ensures b.contador == if StrTruthy(t.reservaId) then a.contador else a.contador + 1
  {
    var clave := ClaveDe(t, a.contador);
    var contador := if StrTruthy(t.reservaId) then a.contador else a.contador + 1;
    if clave in a.grupos then Agrupacion(a.orden, a.grupos[clave := a.grupos[clave] + [t]], contador)
    else Agrupacion(a.orden + [clave], a.grupos[clave := [t]], contador)
  }

  /**
   * The grouping of `procesarTramosParaMostrar`; the counter starts at 1.
   * That the groups partition the input is proved by `AgruparParticion`.
   */
  function Agrupar(s: seq<Tramo>): (a: Agrupacion)
    ensures |a.orden| <= |s|
  {
    if s == [] then Agrupacion([], map[], 1)
    else Anadir(Agrupar(s[..|s| - 1]), s[|s| - 1])
  }

  /** The slot belongs under the key. */
  predicate ClaveCoincide(k: Clave, t: Tramo) {
    match k
    case Reserva(id) => id != "" && t.reservaId == Some(id)
    case SinReserva(f, h, _) => !StrTruthy(t.reservaId) && t.fecha == f && t.horaInicio == h
  }

  /** Every key with a group is listed, and only those. */
  ghost predicate Listadas(a: Agrupacion) {
    forall k :: k in a.grupos <==> k in a.orden
  }

  /** No key is listed twice. */
  ghost predicate SinRepetir(orden: seq<Clave>) {
    forall i, j :: 0 <= i < j < |orden| ==> orden[i] != orden[j]
  }

  ghost predicate NoVacios(a: Agrupacion) {
    forall k :: k in a.grupos ==> a.grupos[k] != []
  }

  /** A synthetic key's group holds one slot, and its counter is below the current one. */
  ghost predicate Unitarios(a: Agrupacion) {
    forall k :: k in a.grupos && k.SinReserva? ==> k.contador < a.contador && |a.grupos[k]| == 1
  }

  /** Every group holds only slots of its key. */
  ghost predicate Coinciden(a: Agrupacion) {
    forall k, t :: k in a.grupos && t in a.grupos[k] ==> ClaveCoincide(k, t)
  }

  /** The shape of every grouping. */
  ghost predicate BienFormada(a: Agrupacion) {
    Listadas(a) && SinRepetir(a.orden) && NoVacios(a) && Unitarios(a) && Coinciden(a)
  }

  /** The groups concatenated in key order. */
  function Aplanar(orden: seq<Clave>, grupos: map<Clave, seq<Tramo>>): seq<Tramo>
  {
    if orden == [] then []
    else
      var k := orden[|orden| - 1];
      Aplanar(orden[..|orden| - 1], grupos) + (if k in grupos then grupos[k] else [])
  }

  lemma {:induction false} AplanarSinClave(orden: seq<Clave>, grupos: map<Clave, seq<Tramo>>, k: Clave, g: seq<Tramo>)
    requires k !in orden
    ensures Aplanar(orden, grupos[k := g]) == Aplanar(orden, grupos)
  {
    if orden != [] {
      AplanarSinClave(orden[..|orden| - 1], grupos, k, g);
    }
  }

  /** Appending a slot to the group of a listed key adds it once to the concatenation. */
  lemma {:induction false} AplanarAmpliar(orden: seq<Clave>, grupos: map<Clave, seq<Tramo>>, k: Clave, t: Tramo)
    requires k in orden && k in grupos
    requires SinRepetir(orden)
    ensures multiset(Aplanar(orden, grupos[k := grupos[k] + [t]])) == multiset(Aplanar(orden, grupos)) + multiset{t}
  {
    var init := orden[..|orden| - 1];
    var last := orden[|orden| - 1];
    if last == k {
      forall i | 0 <= i < |init| ensures init[i] != k {
        assert init[i] == orden[i];
      }
      AplanarSinClave(init, grupos, k, grupos[k] + [t]);
    } else {
      assert k in init by {
        var i :| 0 <= i < |orden| && orden[i] == k;
        assert init[i] == k;
      }
      AplanarAmpliar(init, grupos, k, t);
    }
  }

  lemma AnadirListadas(a: Agrupacion, t: Tramo)
    requires Listadas(a)
    ensures Listadas(Anadir(a, t))
  {
  }

  lemma AnadirSinRepetir(a: Agrupacion, t: Tramo)
    requires Listadas(a) && SinRepetir(a.orden)
    ensures SinRepetir(Anadir(a, t).orden)
  {
    var b := Anadir(a, t);
    if ClaveDe(t, a.contador) !in a.grupos {
      forall i, j | 0 <= i < j < |b.orden| ensures b.orden[i] != b.orden[j] {
        if j == |b.orden| - 1 {
          assert b.orden[i] == a.orden[i];
        }
      }
    }
  }

  lemma AnadirNoVacios(a: Agrupacion, t: Tramo)
    requires NoVacios(a)
    ensures NoVacios(Anadir(a, t))
  {
  }

  /** The counter grows with every slot without `reservaId`, so its key is always new. */
  lemma AnadirUnitarios(a: Agrupacion, t: Tramo)
    requires Unitarios(a)
    ensures Unitarios(Anadir(a, t))
  {
    var clave := ClaveDe(t, a.contador);
    assert clave.SinReserva? ==> clave !in a.grupos;
  }

  lemma AnadirCoinciden(a: Agrupacion, t: Tramo)
    requires Coinciden(a)
    ensures Coinciden(Anadir(a, t))
  {
    var b := Anadir(a, t);
    var clave := ClaveDe(t, a.contador);
    forall k, u | k in b.grupos && u in b.grupos[k] ensures ClaveCoincide(k, u) {
      if k == clave && clave in a.grupos && u != t {
        assert u in a.grupos[k];
      }
    }
  }

  /** One step keeps the grouping well formed. */
  lemma AnadirBienFormada(a: Agrupacion, t: Tramo)
    requires BienFormada(a)
    ensures BienFormada(Anadir(a, t))
  {
    AnadirListadas(a, t);
    AnadirSinRepetir(a, t);
    AnadirNoVacios(a, t);
    AnadirUnitarios(a, t);
    AnadirCoinciden(a, t);
  }

  /** One step adds the slot once to the concatenated groups. */
  lemma AnadirAplanar(a: Agrupacion, t: Tramo)
    requires Listadas(a) && SinRepetir(a.orden)
    ensures multiset(Aplanar(Anadir(a, t).orden, Anadir(a, t).grupos)) == multiset(Aplanar(a.orden, a.grupos)) + multiset{t}
  {
    var clave := ClaveDe(t, a.contador);
    if clave in a.grupos {
      AplanarAmpliar(a.orden, a.grupos, clave, t);
    } else {
      AplanarSinClave(a.orden, a.grupos, clave, [t]);
      var o := a.orden + [clave];
      assert o[..|o| - 1] == a.orden;
    }
  }

  /** One step loses no slot already grouped, and files a slot with a `reservaId` under it. */
  lemma AnadirConserva(a: Agrupacion, t: Tramo)
    ensures forall k, u :: k in a.grupos && u in a.grupos[k] ==> k in Anadir(a, t).grupos && u in Anadir(a, t).grupos[k]
    ensures StrTruthy(t.reservaId) ==>
      Reserva(t.reservaId.value) in Anadir(a, t).grupos && t in Anadir(a, t).grupos[Reserva(t.reservaId.value)]
  {
  }

  /**
   * Grouping is a partition: the concatenated groups are a reordering of the
   * input, every slot with a `reservaId` is in that id's group, and the
   * grouping is well formed.
   */
  lemma {:induction false} AgruparParticion(s: seq<Tramo>)
    ensures BienFormada(Agrupar(s))
    ensures multiset(Aplanar(Agrupar(s).orden, Agrupar(s).grupos)) == multiset(s)
    ensures forall t :: t in s && StrTruthy(t.reservaId) ==>
      Reserva(t.reservaId.value) in Agrupar(s).grupos && t in Agrupar(s).grupos[Reserva(t.reservaId.value)]
  {
    if s != [] {
      var init := s[..|s| - 1];
      var t := s[|s| - 1];
      assert s == init + [t];
      AgruparParticion(init);
      AnadirBienFormada(Agrupar(init), t);
      AnadirAplanar(Agrupar(init), t);
      AnadirConserva(Agrupar(init), t);
      forall u | u in s && StrTruthy(u.reservaId)
        ensures Reserva(u.reservaId.value) in Agrupar(s).grupos && u in Agrupar(s).grupos[Reserva(u.reservaId.value)]
      {
        if u != t {
          assert u in init;
        }
      }
    }
  }

  /** Each slot without a `reservaId` is alone in a group of its own. */
  lemma SinReservaSolitario(s: seq<Tramo>, k: Clave)
    requires k in Agrupar(s).grupos && k.SinReserva?
    ensures |Agrupar(s).grupos[k]| == 1 && !StrTruthy(Agrupar(s).grupos[k][0].reservaId)
  {
    AgruparParticion(s);
  }

  /** Two slots with the same `reservaId` are in the same group, and that group holds nothing else. */
  lemma MismaReservaMismoGrupo(s: seq<Tramo>, t: Tramo, u: Tramo)
    requires t in s && u in s && StrTruthy(t.reservaId) && t.reservaId == u.reservaId
    ensures var k := Reserva(t.reservaId.value);
      k in Agrupar(s).grupos && t in Agrupar(s).grupos[k] && u in Agrupar(s).grupos[k] &&
      forall v :: v in Agrupar(s).grupos[k] ==> v.reservaId == t.reservaId
  {
    AgruparParticion(s);
  }

  // ------------------------------------------------------------- summaries

  /** One line of the list (`ReservaMostrable`); `citaId` is the group key. */
  datatype ReservaMostrable = ReservaMostrable(
    idPrimerTramo: Option<int>,
    citaId: Clave,
    nombrePeluqueria: string,
    nombreEmpleado: string,
    fecha: int,
    horaInicio: int,
    horaFin: int,
    nombreServicio: string,
    precioServicio: int)

  function NombrePeluqueria(t: Tramo): string {
    if t.empleado.Some? && t.empleado.value.peluqueria.Some? then t.empleado.value.peluqueria.value.nombre else ""
  }

  function NombreEmpleado(t: Tramo): string {
    if t.empleado.Some? then t.empleado.value.nombre else ""
  }

  function NombreServicio(t: Tramo): string {
    if t.servicio.Some? then t.servicio.value.nombre else ""
  }

  /** The summary takes its identity, date, start and labels from `primero`. */
  predicate DatosDe(r: ReservaMostrable, primero: Tramo) {
    r.idPrimerTramo == primero.id && r.fecha == primero.fecha && r.horaInicio == primero.horaInicio &&
    r.nombrePeluqueria == OrDefault(NombrePeluqueria(primero), SinPeluqueria) &&
    r.nombreEmpleado == OrDefault(NombreEmpleado(primero), SinEmpleado) &&
    r.nombreServicio == OrDefault(NombreServicio(primero), SinServicio) &&
    r.precioServicio == (if primero.servicio.Some? then primero.servicio.value.precio else 0)
  }

  /** Ordered by start time, a group's first slot starts earliest and its last starts latest. */
  lemma Extremos(grupo: seq<Tramo>)
    requires grupo != []
    ensures var g := OrdenarPorHora(grupo);
      g[0] in grupo && g[|g| - 1] in grupo &&
      forall u :: u in grupo ==> g[0].horaInicio <= u.horaInicio <= g[|g| - 1].horaInicio
  {
    var g := OrdenarPorHora(grupo);
    assert g[0] in multiset(grupo) && g[|g| - 1] in multiset(grupo);
    forall u | u in grupo ensures g[0].horaInicio <= u.horaInicio <= g[|g| - 1].horaInicio {
      assert u in multiset(g);
      var j :| 0 <= j < |g| && g[j] == u;
    }
  }

  /**
   * The summary of a group: the group's slots ordered by start time; the
   * first gives the identity, date, start and labels, the last the end.
   */
  function Resumir(clave: Clave, grupo: seq<Tramo>): (r: ReservaMostrable)
    requires grupo != []
    ensures r.citaId == clave
    ensures r.nombrePeluqueria != "" && r.nombreEmpleado != "" && r.nombreServicio != ""
  {
    var g := OrdenarPorHora(grupo);
    var primero := g[0];
    var ultimo := g[|g| - 1];
    ReservaMostrable(
      primero.id, clave,
      OrDefault(NombrePeluqueria(primero), SinPeluqueria),
      OrDefault(NombreEmpleado(primero), SinEmpleado),
      primero.fecha, primero.horaInicio, ultimo.horaFin,
      OrDefault(NombreServicio(primero), SinServicio),
      if primero.servicio.Some? then primero.servicio.value.precio else 0)
  }

  /**
   * A summary takes its identity, date, start and labels from a slot of the
   * group that starts earliest, and its end from a slot that starts latest.
   */
  lemma ResumirExtremos(clave: Clave, grupo: seq<Tramo>)
    requires grupo != []
    ensures var r := Resumir(clave, grupo);
      (exists t :: t in grupo && DatosDe(r, t) && forall u :: u in grupo ==> t.horaInicio <= u.horaInicio) &&
      (exists t :: t in grupo && r.horaFin == t.horaFin && forall u :: u in grupo ==> u.horaInicio <= t.horaInicio)
  {
    Extremos(grupo);
  }

  /** The summaries of the listed groups, in key order. */
  function Resumenes(orden: seq<Clave>, grupos: map<Clave, seq<Tramo>>): (r: seq<ReservaMostrable>)
    requires forall k :: k in orden ==> k in grupos && grupos[k] != []
    ensures |r| == |orden|
    ensures forall i :: 0 <= i < |r| ==> r[i] == Resumir(orden[i], grupos[orden[i]])
  {
    if orden == [] then []
    else
      var k := orden[|orden| - 1];
      Resumenes(orden[..|orden| - 1], grupos) + [Resumir(k, grupos[k])]
  }

  /** The final comparator: by date, then by start time. */
  predicate ResumenLeq(a: ReservaMostrable, b: ReservaMostrable) {
    a.fecha < b.fecha || (a.fecha == b.fecha && a.horaInicio <= b.horaInicio)
  }

  lemma ResumenLeqIsTotalOrder()
    ensures Sorting.Total(ResumenLeq) && Sorting.Transitive(ResumenLeq)
    ensures forall r :: ResumenLeq(r, r)
  {
  }

  /** Every listed key has a non-empty group, and only an empty input has no key. */
  lemma AgruparResumible(ts: seq<Tramo>)
    ensures var a := Agrupar(ts);
      (forall k :: k in a.orden ==> k in a.grupos && a.grupos[k] != []) &&
      (ts != [] ==> a.orden != [])
  {
    var a := Agrupar(ts);
    AgruparParticion(ts);
    if ts != [] {
      assert ts[0] in multiset(Aplanar(a.orden, a.grupos));
    }
  }

  /**
   * The final sort is stable: summaries with the same date and start time
   * keep the order of their groups.
   */
  lemma OrdenarResumenesEstable(res: seq<ReservaMostrable>, x: ReservaMostrable)
    ensures Sorting.Equivalentes(Sorting.Sort(res, ResumenLeq), ResumenLeq, x) == Sorting.Equivalentes(res, ResumenLeq, x)
  {
    ResumenLeqIsTotalOrder();
    Sorting.SortEstable(res, ResumenLeq, x);
  }

  /** The final sort orders the summaries and is a permutation of them. */
  lemma OrdenarResumenesPermuta(res: seq<ReservaMostrable>)
    ensures var r := Sorting.Sort(res, ResumenLeq);
      |r| == |res| && multiset(r) == multiset(res) &&
      (forall i, j :: 0 <= i <= j < |r| ==> ResumenLeq(r[i], r[j]))
  {
    var r := Sorting.Sort(res, ResumenLeq);
    ResumenLeqIsTotalOrder();
    Sorting.SortSorted(res, ResumenLeq);
    forall i, j | 0 <= i <= j < |r| ensures ResumenLeq(r[i], r[j]) {
      Sorting.SortedPairwise(r, ResumenLeq, i, j);
    }
  }

  /** Hence every summary is kept and none is added. */
  lemma OrdenarResumenesMiembros(res: seq<ReservaMostrable>)
    ensures var r := Sorting.Sort(res, ResumenLeq);
      |r| == |res| &&
      (forall i, j :: 0 <= i <= j < |r| ==> ResumenLeq(r[i], r[j])) &&
      (forall i :: 0 <= i < |r| ==> r[i] in res) &&
      (forall j :: 0 <= j < |res| ==> res[j] in r)
  {
    var r := Sorting.Sort(res, ResumenLeq);
    OrdenarResumenesPermuta(res);
    forall i | 0 <= i < |r| ensures r[i] in res {
      assert r[i] in multiset(res);
    }
    forall j | 0 <= j < |res| ensures res[j] in r {
      assert res[j] in multiset(r);
    }
  }

  /** The summary of its own group. */
  ghost predicate ResumenDeSuGrupo(r: ReservaMostrable, orden: seq<Clave>, grupos: map<Clave, seq<Tramo>>) {
    r.citaId in orden && r.citaId in grupos && grupos[r.citaId] != [] && r == Resumir(r.citaId, grupos[r.citaId])
  }

  lemma ResumenesMiembros(orden: seq<Clave>, grupos: map<Clave, seq<Tramo>>)
    requires forall k :: k in orden ==> k in grupos && grupos[k] != []
    ensures forall x :: x in Resumenes(orden, grupos) ==> ResumenDeSuGrupo(x, orden, grupos)
  {
    var res := Resumenes(orden, grupos);
    forall x | x in res ensures ResumenDeSuGrupo(x, orden, grupos) {
      var j :| 0 <= j < |res| && res[j] == x;
      var k := orden[j];
      assert k in orden && k in grupos && grupos[k] != [];
      assert x == Resumir(k, grupos[k]);
      assert x.citaId == k;
    }
  }

  /** In any reordering of the summaries, each is the summary of its own group. */
  lemma ReordenarDeSuGrupo(orden: seq<Clave>, grupos: map<Clave, seq<Tramo>>, r: seq<ReservaMostrable>)
    requires forall k :: k in orden ==> k in grupos && grupos[k] != []
    requires forall i :: 0 <= i < |r| ==> r[i] in Resumenes(orden, grupos)
    ensures forall i :: 0 <= i < |r| ==> ResumenDeSuGrupo(r[i], orden, grupos)
  {
    ResumenesMiembros(orden, grupos);
    forall i | 0 <= i < |r| ensures ResumenDeSuGrupo(r[i], orden, grupos) {
      assert r[i] in Resumenes(orden, grupos);
    }
  }

  /** A reordering of the summaries has a summary for every listed key, and for no other. */
  lemma ReordenarCubre(orden: seq<Clave>, grupos: map<Clave, seq<Tramo>>, r: seq<ReservaMostrable>)
    requires forall k :: k in orden ==> k in grupos && grupos[k] != []
    requires forall i :: 0 <= i < |r| ==> r[i] in Resumenes(orden, grupos)
    requires forall j :: 0 <= j < |orden| ==> Resumenes(orden, grupos)[j] in r
    ensures forall k :: k in orden <==> exists i :: 0 <= i < |r| && r[i].citaId == k
  {
    var res := Resumenes(orden, grupos);
    ReordenarDeSuGrupo(orden, grupos, r);
    forall k | k in orden ensures exists i :: 0 <= i < |r| && r[i].citaId == k {
      var j :| 0 <= j < |orden| && orden[j] == k;
      assert res[j].citaId == k;
      assert res[j] in r;
      var i :| 0 <= i < |r| && r[i] == res[j];
    }
    forall k | (exists i :: 0 <= i < |r| && r[i].citaId == k) ensures k in orden {
      var i :| 0 <= i < |r| && r[i].citaId == k;
      assert ResumenDeSuGrupo(r[i], orden, grupos);
    }
  }

  /**
   * Sorting the summaries of the listed groups gives one summary per key,
   * each the summary of its group, in order.
   */
  lemma OrdenarResumenes(orden: seq<Clave>, grupos: map<Clave, seq<Tramo>>)
    requires forall k :: k in orden ==> k in grupos && grupos[k] != []
    ensures var r := Sorting.Sort(Resumenes(orden, grupos), ResumenLeq);
      |r| == |orden| &&
      (forall k :: k in orden <==> exists i :: 0 <= i < |r| && r[i].citaId == k) &&
      (forall i :: 0 <= i < |r| ==> ResumenDeSuGrupo(r[i], orden, grupos)) &&
      (forall i, j :: 0 <= i <= j < |r| ==> ResumenLeq(r[i], r[j]))
  {
    var res := Resumenes(orden, grupos);
    var r := Sorting.Sort(res, ResumenLeq);
    OrdenarResumenesMiembros(res);
    ReordenarDeSuGrupo(orden, grupos, r);
    ReordenarCubre(orden, grupos, r);
  }

  /**
   * `procesarTramosParaMostrar`: one summary per group, each the summary of
   * its group, ordered by date and then start time.
   */
  function Procesar(ts: seq<Tramo>): (r: seq<ReservaMostrable>)
    ensures var a := Agrupar(ts);
      |r| == |a.orden| &&
      (forall k :: k in a.orden <==> exists i :: 0 <= i < |r| && r[i].citaId == k) &&
      (forall i :: 0 <= i < |r| ==>
        r[i].citaId in a.grupos && a.grupos[r[i].citaId] != [] && r[i] == Resumir(r[i].citaId, a.grupos[r[i].citaId]))
    ensures forall i, j :: 0 <= i <= j < |r| ==> ResumenLeq(r[i], r[j])
    ensures r == [] <==> ts == []
  {
    var a := Agrupar(ts);
    AgruparResumible(ts);
    var r := Sorting.Sort(Resumenes(a.orden, a.grupos), ResumenLeq);
    assert |r| == |a.orden| && (r == [] <==> ts == []) by {
      OrdenarResumenesPermuta(Resumenes(a.orden, a.grupos));
    }
    OrdenarResumenes(a.orden, a.grupos);
    r
  }

  /** With no slot left by the filter there is nothing to show, and only then. */
  lemma SinReservasSiiNadaFiltrado(ts: seq<Tramo>, clienteId: int)
    ensures Procesar(Filtrar(ts, clienteId)) == [] <==> forall t :: t in ts ==> !EsReservaDe(t, clienteId)
  {
    var f := Filtrar(ts, clienteId);
    if f != [] {
      assert f[0] in f;
    }
  }

  /** The request sent by `cancelarReserva`: the id of the appointment's first slot. */
  datatype Cancelacion = Cancelacion(idPrimerTramo: Option<int>)

  /** The message of a failed cancellation: the backend's message, else the HTTP error's (`undefined` when absent). */
  function MensajeErrorCancelar(mensajeBackend: Option<string>, mensajeHttp: Option<string>): (m: string)
    ensures |m| >= |PrefijoErrorCancelar| && m[..|PrefijoErrorCancelar|] == PrefijoErrorCancelar
    ensures StrTruthy(mensajeBackend) ==> m == PrefijoErrorCancelar + mensajeBackend.value
    ensures !StrTruthy(mensajeBackend) && mensajeHttp.Some? ==> m == PrefijoErrorCancelar + mensajeHttp.value
    ensures !StrTruthy(mensajeBackend) && mensajeHttp.None? ==> m == PrefijoErrorCancelar + "undefined"
  {
    PrefijoErrorCancelar +
      (if StrTruthy(mensajeBackend) then mensajeBackend.value
       else if mensajeHttp.Some? then mensajeHttp.value
       else "undefined")
  }

  class CancelarReservaClienteComponent {
    const currentUser: Option<AuthUser>
    var reservasMostrables: seq<ReservaMostrable>
    var mensajeExito: Option<string>
    var mensajeError: Option<string>

    constructor (currentUser: Option<AuthUser>)
      ensures this.currentUser == currentUser
      ensures reservasMostrables == [] && mensajeExito.None? && mensajeError.None?
    {
      this.currentUser := currentUser;
      reservasMostrables := [];
      mensajeExito := None;
      mensajeError := None;
    }

    /** The client whose bookings are shown: the user's id, when truthy. */
    function ClienteId(): Option<int> {
      if currentUser.Some? && currentUser.value.id != 0 then Some(currentUser.value.id) else None
    }

    /** `ngOnInit`: loads the user's bookings, or reports that there is no client. Returns the id requested. */
    method Iniciar() returns (solicitud: Option<int>)
      modifies this
      ensures solicitud == ClienteId()
      ensures solicitud.Some? ==> mensajeError.None? && mensajeExito.None?
      ensures solicitud.None? ==> mensajeError == Some(MsgSinCliente) && mensajeExito == old(mensajeExito)
      ensures reservasMostrables == old(reservasMostrables)
    {
      solicitud := ClienteId();
      if solicitud.Some? {
        var _ := CargarReservasCliente(solicitud.value);
      } else {
        mensajeError := Some(MsgSinCliente);
      }
    }

    /** `cargarReservasCliente` up to the request: nothing happens for a falsy id. */
    method CargarReservasCliente(clienteId: int) returns (solicitud: bool)
      modifies this
      ensures solicitud <==> clienteId != 0
      ensures solicitud ==> mensajeError.None? && mensajeExito.None?
      ensures !solicitud ==> mensajeError == old(mensajeError) && mensajeExito == old(mensajeExito)
      ensures reservasMostrables == old(reservasMostrables)
    {
      if clienteId == 0 {
        return false;
      }
      mensajeError := None;
      mensajeExito := None;
      return true;
    }

    /** The response to `getReservasPorCliente`: `None` when the request failed. */
    method AlRecibirReservas(clienteId: int, respuesta: Option<seq<Tramo>>)
      modifies this
      ensures respuesta.None? ==>
        mensajeError == Some(MsgErrorCarga) && reservasMostrables == old(reservasMostrables)
      ensures respuesta.Some? ==>
        reservasMostrables == Procesar(Filtrar(respuesta.value, clienteId)) &&
        mensajeError == (if reservasMostrables == [] then Some(MsgSinReservas) else old(mensajeError))
      ensures mensajeExito == old(mensajeExito)
    {
      if respuesta.None? {
        mensajeError := Some(MsgErrorCarga);
        return;
      }
      var filtrados := Filtrar(respuesta.value, clienteId);
      reservasMostrables := ProcesarTramosParaMostrar(filtrados);
      if |reservasMostrables| == 0 {
        mensajeError := Some(MsgSinReservas);
      }
    }

    /**
     * `procesarTramosParaMostrar` as the source runs it: a loop that builds
     * the groups in a map, a loop that summarises them, and the final sort.
     */
    method ProcesarTramosParaMostrar(ts: seq<Tramo>) returns (r: seq<ReservaMostrable>)
      ensures r == Procesar(ts)
    {
      var orden, agrupadas, contador := AgruparTramos(ts);
      AgruparResumible(ts);
      var resultado := ResumirGrupos(orden, agrupadas);
      r := Sorting.Sort(resultado, ResumenLeq);
    }

    /** The `forEach` that fills the map of groups, keyed by `reservaId` or a synthetic key. */
    static method AgruparTramos(ts: seq<Tramo>) returns (orden: seq<Clave>, agrupadas: map<Clave, seq<Tramo>>, contadorSinReserva: int)
      ensures Agrupacion(orden, agrupadas, contadorSinReserva) == Agrupar(ts)
    {
      orden, agrupadas, contadorSinReserva := [], map[], 1;
      for i := 0 to |ts|
        invariant Agrupacion(orden, agrupadas, contadorSinReserva) == Agrupar(ts[..i])
      {
        assert ts[..i + 1][..i] == ts[..i];
        ghost var antes := Agrupacion(orden, agrupadas, contadorSinReserva);
        assert Agrupar(ts[..i + 1]) == Anadir(antes, ts[i]);
        var tramo := ts[i];
        var clave: Clave;
        if StrTruthy(tramo.reservaId) {
          clave := Reserva(tramo.reservaId.value);
        } else {
          clave := SinReserva(tramo.fecha, tramo.horaInicio, contadorSinReserva);
          contadorSinReserva := contadorSinReserva + 1;
        }
        assert clave == ClaveDe(tramo, antes.contador);
        if clave in agrupadas {
          agrupadas := agrupadas[clave := agrupadas[clave] + [tramo]];
        } else {
          agrupadas := agrupadas[clave := [tramo]];
          orden := orden + [clave];
        }
      }
      assert ts[..|ts|] == ts;
    }

    /** The `forEach` over the map that builds one summary per group, in key order. */
    static method ResumirGrupos(orden: seq<Clave>, agrupadas: map<Clave, seq<Tramo>>) returns (resultado: seq<ReservaMostrable>)
      requires forall k :: k in orden ==> k in agrupadas && agrupadas[k] != []
      ensures resultado == Resumenes(orden, agrupadas)
    {
      resultado := [];
      for j := 0 to |orden|
        invariant forall k :: k in orden[..j] ==> k in orden
        invariant resultado == Resumenes(orden[..j], agrupadas)
      {
        var clave := orden[j];
        ghost var hecho := orden[..j + 1];
        assert hecho[..j] == orden[..j] && hecho[j] == clave;
        assert forall k :: k in hecho ==> k in orden;
        assert Resumenes(hecho, agrupadas) == Resumenes(orden[..j], agrupadas) + [Resumir(clave, agrupadas[clave])];
        resultado := resultado + [Resumir(clave, agrupadas[clave])];
      }
      assert orden[..|orden|] == orden;
    }

    /**
     * `cancelarReserva`: without the user's confirmation nothing happens;
     * otherwise both messages are cleared and the appointment's first slot
     * id is sent.
     */
    method CancelarReserva(idPrimerTramo: Option<int>, confirmado: bool) returns (peticion: Option<Cancelacion>)
      modifies this
      ensures peticion.Some? <==> confirmado
      ensures confirmado ==> peticion.value.idPrimerTramo == idPrimerTramo && mensajeError.None? && mensajeExito.None?
      ensures !confirmado ==> mensajeError == old(mensajeError) && mensajeExito == old(mensajeExito)
      ensures reservasMostrables == old(reservasMostrables)
    {
      if !confirmado {
        return None;
      }
      mensajeExito := None;
      mensajeError := None;
      return Some(Cancelacion(idPrimerTramo));
    }

    /**
     * The success handler of `cancelarReserva`: shows the success message and
     * reloads the user's bookings, which clears it again. Returns the id
     * whose bookings are requested.
     */
    method AlCancelarConExito() returns (recarga: Option<int>)
      modifies this
      ensures recarga == ClienteId()
      ensures recarga.Some? ==> mensajeExito.None? && mensajeError.None?
      ensures recarga.None? ==> mensajeExito == Some(MsgCancelada) && mensajeError == old(mensajeError)
      ensures reservasMostrables == old(reservasMostrables)
    {
      mensajeExito := Some(MsgCancelada);
      recarga := ClienteId();
      if recarga.Some? {
        var _ := CargarReservasCliente(recarga.value);
      }
    }

    /** The error handler of `cancelarReserva`. */
    method AlFallarCancelacion(mensajeBackend: Option<string>, mensajeHttp: Option<string>)
      modifies this
      ensures mensajeError == Some(MensajeErrorCancelar(mensajeBackend, mensajeHttp))
      ensures mensajeExito == old(mensajeExito) && reservasMostrables == old(reservasMostrables)
    {
      mensajeError := Some(MensajeErrorCancelar(mensajeBackend, mensajeHttp));
    }
  }
}
