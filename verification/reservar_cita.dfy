/**
 * `ReservarCitaComponent`: the booking screen. The slot list is an array of
 * displayed slots that the handlers update in place, or replace by a new
 * one on (re)load. Each handler is proved to perform the transition of the
 * same name in module Reserva, and to keep `Reserva.Coherente`.
 *
 * The form's four fields are constants of the object: the handlers that
 * react to a change of the form are not part of this model.
 */
module ReservarCita {
  import opened Common
  import opened Model
  import opened Auth
  import opened Reserva

  /** `servicios.find(s => s.id === id)`: the first service with that id. */
  function BuscarServicio(servicios: seq<Servicio>, id: Option<int>): (r: Option<Servicio>)
    ensures r.None? <==> forall i :: 0 <= i < |servicios| ==> servicios[i].id != id
    ensures r.Some? ==> r.value.id == id && EsPrimero(servicios, r.value, id)
  {
    if servicios == [] then None
    else if servicios[0].id == id then Some(servicios[0])
    else
      var r := BuscarServicio(servicios[1..], id);
      assert r.Some? ==> EsPrimero(servicios, r.value, id) by {
        if r.Some? {
          var i :| 0 <= i < |servicios[1..]| && servicios[1..][i] == r.value &&
            (forall j :: 0 <= j < i ==> servicios[1..][j].id != id);
          assert servicios[i + 1] == r.value;
          forall j | 0 <= j < i + 1 ensures servicios[j].id != id {
            if j > 0 { assert servicios[j] == servicios[1..][j - 1]; }
          }
        }
      }
      r
  }

  /** `s` is the first service in the list with that id. */
  ghost predicate EsPrimero(servicios: seq<Servicio>, s: Servicio, id: Option<int>) {
    exists i :: 0 <= i < |servicios| && servicios[i] == s && (forall j :: 0 <= j < i ==> servicios[j].id != id)
  }

  class ReservarCitaComponent {
    /** The form: hairdresser, employee, service and date. */
    const peluqueriaId: Option<int>
    const empleadoId: Option<int>
    const servicioId: Option<int>
    const fechaCita: Option<int>
    /** The services offered by the chosen hairdresser. */
    const servicios: seq<Servicio>

    /** `tramosParaMostrar` */
    var tramos: array<Casilla>
    var mensajeError: Option<string>
    var mensajeExito: Option<string>

    constructor (peluqueriaId: Option<int>, empleadoId: Option<int>, servicioId: Option<int>,
                 fechaCita: Option<int>, servicios: seq<Servicio>)
      ensures this.peluqueriaId == peluqueriaId && this.empleadoId == empleadoId
      ensures this.servicioId == servicioId && this.fechaCita == fechaCita && this.servicios == servicios
      ensures Actual() == Vista([], None, None) && Valid()
      ensures fresh(tramos)
    {
      this.peluqueriaId := peluqueriaId;
      this.empleadoId := empleadoId;
      this.servicioId := servicioId;
      this.fechaCita := fechaCita;
      this.servicios := servicios;
      tramos := new Casilla[0];
      mensajeError := None;
      mensajeExito := None;
    }

    /** What the screen shows. */
    function Actual(): Vista
      reads this, tramos
    {
      Vista(tramos[..], mensajeError, mensajeExito)
    }

    ghost predicate Valid()
      reads this, tramos
    {
      Coherente(tramos[..], ServicioSeleccionado())
    }

    /**
     * `getServicioSeleccionado`: none without a (truthy) service id, else the
     * first offered service with that id.
     */
    function ServicioSeleccionado(): (r: Option<Servicio>)
      ensures r.Some? ==> NumTruthy(servicioId) && r.value.id == servicioId && r.value in servicios
      ensures r.None? <==> !NumTruthy(servicioId) || forall s :: s in servicios ==> s.id != servicioId
    {
      if !NumTruthy(servicioId) then None else BuscarServicio(servicios, servicioId)
    }

    /** All four form fields are filled in (the test of `intentarCargarTramos`). */
    predicate FormularioCompleto() {
      NumTruthy(peluqueriaId) && NumTruthy(empleadoId) && NumTruthy(servicioId) && fechaCita.Some?
    }

    /**
     * `hayTramosSeleccionables`: a service is chosen and some slot can start
     * it; on a coherent screen that slot heads a block of as many
     * `Disponible` slots as the service takes.
     */
    predicate HayTramosSeleccionables()
      reads this, tramos
      ensures HayTramosSeleccionables() ==> ServicioSeleccionado().Some?
      ensures HayTramosSeleccionables() && Valid() ==>
        exists i :: 0 <= i < tramos.Length && InicioPosible(tramos[..], i, ServicioSeleccionado().value.numTramos)
    {
      ServicioSeleccionado().Some? &&
      exists i :: 0 <= i < tramos.Length && tramos[i].estado == Disponible && tramos[i].esInicioPosible
    }

    /**
     * `intentarCargarTramos` up to the request: returns whether a fetch is
     * issued; the list is emptied either way.
     */
    method IntentarCargarTramos() returns (solicitud: bool)
      modifies this
      ensures solicitud == FormularioCompleto()
      ensures Actual() == AlIntentarCargar(old(Actual()), FormularioCompleto())
      ensures Valid()
    {
      solicitud := FormularioCompleto();
      if solicitud {
        mensajeError := None;
        mensajeExito := None;
      }
      tramos := new Casilla[0];
    }

    /**
     * The response of the fetch issued by `cargarTramosDisponibles`:
     * `None` when the request failed, else the slots received.
     */
    method AlRecibirTramos(respuesta: Option<seq<Tramo>>)
      modifies this
      ensures Actual() == AlCargar(old(Actual()), ServicioSeleccionado(), respuesta)
      ensures old(Valid()) ==> Valid()
    {
      ghost var x := Actual();
      ghost var svc := ServicioSeleccionado();
      if Coherente(x.tramos, svc) {
        AlCargarCoherente(x, svc, respuesta);
      }
      if respuesta.None? {
        mensajeError := Some(MsgErrorCarga);
        return;
      }
      var fetched := respuesta.value;
      var servicio := ServicioSeleccionado();
      if servicio.None? {
        tramos := new Casilla[0];
        mensajeError := Some(MsgServicioInvalido);
        return;
      }
      var n := servicio.value.numTramos;
      var s := OrdenarPorHora(fetched);
      var a := new Casilla[|s|];
      for i := 0 to |s|
        invariant unchanged(this)
        invariant forall j :: 0 <= j < i ==> a[j] == Clasificar(s, n)[j]
      {
        var estado := EstadoInicial(s[i]);
        var inicio := false;
        if estado == Disponible && n > 0 {
          inicio := BloqueLibre(s, i, n);
        }
        a[i] := Casilla(s[i], estado, inicio);
      }
      assert a[..] == Clasificar(s, n);
      tramos := a;
      mensajeError :=
        if a.Length == 0 && |fetched| > 0 then Some(MsgSinHuecos)
        else if |fetched| == 0 then Some(MsgSinHorarios)
        else mensajeError;
    }

    /** The `n` slots from `index` on exist and are open and free (`n > 0`). */
    static method BloqueLibre(s: seq<Tramo>, index: int, n: int) returns (puede: bool)
      requires 0 <= index < |s| && n > 0
      ensures puede <==> index + n <= |s| && forall j :: index <= j < index + n ==> Libre(s[j])
    {
      if index + n > |s| {
        return false;
      }
      puede := true;
      var i := 0;
      while i < n
        invariant 0 <= i <= n
        invariant puede <==> forall j :: index <= j < index + i ==> Libre(s[j])
        invariant puede
      {
        var t := s[index + i];
        if !t.disponible || HasCita(t) {
          puede := false;
          return;
        }
        i := i + 1;
      }
    }

    /** `cancelarSeleccion`. */
    method CancelarSeleccion()
      modifies this, tramos
      ensures tramos == old(tramos)
      ensures Actual() == CancelarSel(old(Actual()), ServicioSeleccionado())
      ensures old(Valid()) ==> Valid()
    {
      ghost var x := Actual();
      if Coherente(x.tramos, ServicioSeleccionado()) {
        CancelarCoherente(x, ServicioSeleccionado());
      }
      var servicio := ServicioSeleccionado();
      if servicio.None? {
        return;
      }
      var deseleccion := RevertirSeleccion();
      if deseleccion {
        RecalcularEsInicioPosible();
      }
      mensajeError := None;
      mensajeExito := None;
    }

    /**
     * The loop shared by `cancelarSeleccion` and `seleccionarTramo`: every
     * selected slot goes back to `Disponible` or `NoSeleccionable`. Returns
     * whether anything was selected.
     */
    method RevertirSeleccion() returns (deseleccion: bool)
      modifies tramos
      ensures tramos[..] == RevertirTodos(old(tramos[..]))
      ensures deseleccion == HaySeleccion(old(tramos[..]))
    {
      ghost var v := tramos[..];
      deseleccion := false;
      for i := 0 to tramos.Length
        invariant forall j :: 0 <= j < i ==> tramos[j] == Revertir(v[j])
        invariant forall j :: i <= j < tramos.Length ==> tramos[j] == v[j]
        invariant deseleccion <==> exists j :: 0 <= j < i && v[j].estado == Seleccionado
      {
        if tramos[i].estado == Seleccionado {
          tramos[i] := tramos[i].(estado := if Libre(tramos[i].tramo) then Disponible else NoSeleccionable);
          deseleccion := true;
        }
      }
      assert tramos[..] == RevertirTodos(v);
    }

    /**
     * The selection loop of `seleccionarTramo`: marks slots from `indice` on
     * as `Seleccionado` while they are free, up to `n` of them. Returns
     * whether all `n` were marked.
     */
    method SeleccionarBloque(indice: int, n: int) returns (completo: bool)
      requires 0 <= indice < tramos.Length
      modifies tramos
      ensures var f := LibresDesde(old(tramos[..]), indice, n);
        tramos[..] == Marcar(old(tramos[..]), indice, f) && (completo <==> f >= n)
    {
      ghost var r := tramos[..];
      ghost var f := LibresDesde(r, indice, n);
      var i := 0;
      while i < n
        invariant 0 <= i <= f
        invariant forall j :: 0 <= j < tramos.Length ==>
          tramos[j] == if indice <= j < indice + i then r[j].(estado := Seleccionado) else r[j]
      {
        if indice + i < tramos.Length && Libre(tramos[indice + i].tramo) {
          tramos[indice + i] := tramos[indice + i].(estado := Seleccionado);
          i := i + 1;
        } else {
          assert tramos[..] == Marcar(r, indice, i);
          return false;
        }
      }
      assert tramos[..] == Marcar(r, indice, i);
      return true;
    }

    /** `recalculateEsInicioPosibleForAllTramos`. */
    method RecalcularEsInicioPosible()
      modifies tramos
      ensures Actual() == old(Actual()).(tramos := Recalcular(old(tramos[..]), ServicioSeleccionado()))
    {
      ghost var v := tramos[..];
      var servicio := ServicioSeleccionado();
      if servicio.None? {
        for i := 0 to tramos.Length
          invariant forall j :: 0 <= j < i ==> tramos[j] == Recalcular(v, servicio)[j]
          invariant forall j :: i <= j < tramos.Length ==> tramos[j] == v[j]
        {
          tramos[i] := tramos[i].(esInicioPosible := false);
        }
        assert tramos[..] == Recalcular(v, servicio);
        return;
      }
      var n := servicio.value.numTramos;
      for i := 0 to tramos.Length
        invariant forall j :: 0 <= j < i ==> tramos[j] == Recalcular(v, servicio)[j]
        invariant forall j :: i <= j < tramos.Length ==> tramos[j] == v[j]
      {
        if tramos[i].estado == Disponible {
          var puede := BloqueDisponible(i, n);
          assert puede == InicioPosible(v, i, n);
          tramos[i] := tramos[i].(esInicioPosible := puede);
        } else {
          tramos[i] := tramos[i].(esInicioPosible := false);
        }
      }
      assert tramos[..] == Recalcular(v, servicio);
    }

    /** The recalculation test: the `n` slots from `idx` on exist and are all shown `Disponible`. */
    method BloqueDisponible(idx: int, n: int) returns (puede: bool)
      requires 0 <= idx < tramos.Length && tramos[idx].estado == Disponible
      ensures puede == InicioPosible(tramos[..], idx, n)
    {
      if idx + n > tramos.Length {
        return false;
      }
      puede := true;
      var i := 0;
      while i < n
        invariant 0 <= i && (n >= 0 ==> i <= n)
        invariant idx + i <= tramos.Length
        invariant puede && forall j :: idx <= j < idx + i ==> tramos[j].estado == Disponible
      {
        if tramos[idx + i].estado != Disponible {
          puede := false;
          return;
        }
        i := i + 1;
      }
    }

    /** `findIndex(t => t.id === id)` on the slot list. */
    method BuscarIndice(id: Option<int>) returns (idx: int)
      ensures idx == IndiceDe(tramos[..], id)
    {
      var i := 0;
      while i < tramos.Length
        invariant 0 <= i <= tramos.Length
        invariant forall j :: 0 <= j < i ==> tramos[j].tramo.id != id
      {
        if tramos[i].tramo.id == id {
          var r := IndiceDe(tramos[..], id);
          assert !(0 <= r < i) && !(i < r);
          return i;
        }
        i := i + 1;
      }
      return -1;
    }

    /** `seleccionarTramo` on the slot at position `k`. */
    method SeleccionarTramo(k: int)
      requires 0 <= k < tramos.Length
      modifies this, tramos
      ensures tramos == old(tramos)
      ensures Actual() == Click(old(Actual()), k, ServicioSeleccionado())
      ensures old(Valid()) ==> Valid()
    {
      ghost var x := Actual();
      ghost var svc := ServicioSeleccionado();
      if Coherente(x.tramos, svc) {
        ClickCoherente(x, k, svc);
      }
      var servicio := ServicioSeleccionado();
      if servicio.None? {
        mensajeError := Some(MsgSeleccionePrimero);
        return;
      }
      var n := servicio.value.numTramos;
      var clickeado := tramos[k];
      var indice := BuscarIndice(clickeado.tramo.id);
      if clickeado.estado == Seleccionado {
        CancelarSeleccion();
        mensajeError := None;
        return;
      } else if clickeado.estado == Disponible && clickeado.esInicioPosible {
        var _ := RevertirSeleccion();
        var completo := SeleccionarBloque(indice, n);
        if !completo {
          mensajeError := Some(MsgErrorBloque);
          CancelarSeleccion();
          return;
        }
        mensajeError := None;
      } else if clickeado.estado == ReservadoOtro || clickeado.estado == ReservadoPropio {
        mensajeError := Some(MsgYaReservado);
      } else {
        mensajeError := Some(MsgNoDisponible);
      }
      RecalcularEsInicioPosible();
    }

    /**
     * `confirmarReserva` up to the request: returns the request to send, if
     * the local checks pass.
     */
    method ConfirmarReserva(user: Option<AuthUser>) returns (peticion: Option<ReservaRequest>)
      modifies this
      ensures (Actual(), peticion) ==
        AlConfirmar(old(Actual()), user, ServicioSeleccionado(), empleadoId, fechaCita, FormularioCompleto())
      ensures old(Valid()) ==> Valid()
    {
      mensajeError := None;
      mensajeExito := None;
      peticion := None;
      if user.None? || user.value.rol != "CLIENTE" {
        mensajeError := Some(MsgDebeSerCliente);
        return;
      }
      var seleccionados := Seleccionados(tramos[..]);
      if |seleccionados| == 0 || !NumTruthy(seleccionados[0].tramo.id) {
        mensajeError := Some(MsgSeleccioneTramo);
        return;
      }
      if SeleccionObsoleta(seleccionados) {
        mensajeError := Some(MsgTramosOcupados);
        var _ := IntentarCargarTramos();
        return;
      }
      var servicio := ServicioSeleccionado();
      if servicio.None? || !NumTruthy(servicio.value.id) {
        mensajeError := Some(MsgServicioNoValido);
        return;
      }
      if !NumTruthy(empleadoId) || fechaCita.None? {
        mensajeError := Some(MsgEmpleadoFecha);
        return;
      }
      var ids := IdsSeleccionados(tramos[..]);
      peticion := Some(ReservaRequest(ids[0], user.value.id, servicio.value.id.value, ids, ids[0],
                                      empleadoId.value, fechaCita.value));
    }

    /** The success handler of `confirmarReserva`. */
    method AlReservarConExito()
      modifies this, tramos
      ensures tramos == old(tramos)
      ensures Actual() == AlReservar(old(Actual()), ServicioSeleccionado())
      ensures old(Valid()) ==> Valid()
    {
      ghost var x := Actual();
      if Coherente(x.tramos, ServicioSeleccionado()) {
        ReservaCoherente(x, ServicioSeleccionado());
      }
      mensajeExito := Some(MsgExito);
      var ids := IdsSeleccionados(tramos[..]);
      MarcarReservados(ids);
      RecalcularEsInicioPosible();
    }

    /** The `forEach` of the success handler. */
    method MarcarReservados(ids: seq<Option<int>>)
      modifies tramos
      ensures tramos[..] == MarcarPropios(old(tramos[..]), ids)
    {
      ghost var v := tramos[..];
      for i := 0 to tramos.Length
        invariant forall j :: 0 <= j < i ==> tramos[j] == MarcarPropios(v, ids)[j]
        invariant forall j :: i <= j < tramos.Length ==> tramos[j] == v[j]
      {
        if NumTruthy(tramos[i].tramo.id) && tramos[i].tramo.id in ids {
          tramos[i] := tramos[i].(estado := ReservadoPropio, esInicioPosible := false);
        }
      }
      assert tramos[..] == MarcarPropios(v, ids);
    }

    /**
     * The error handler of `confirmarReserva`: the backend's message and the
     * HTTP error's message ("" when absent). Returns whether the reload
     * issues a fetch.
     */
    method AlFallarReserva(mensajeBackend: string, mensajeHttp: string) returns (solicitud: bool)
      modifies this
      ensures solicitud == FormularioCompleto()
      ensures Actual() == Reserva.AlFallarReserva(old(Actual()), mensajeBackend, mensajeHttp, FormularioCompleto())
      ensures Valid()
    {
      mensajeError := Some(MensajeFallo(mensajeBackend, mensajeHttp));
      solicitud := IntentarCargarTramos();
    }
  }
}
