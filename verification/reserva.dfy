/**
 * The booking screen's slot list as values: how fetched slots are
 * classified, which of them can start a service, and what each user action
 * does to the list and to the screen's two messages. The component class in
 * module ReservarCita performs these transitions in place on an array;
 * here they are functions, and the lemmas state what they guarantee.
 */
module Reserva {
  import opened Common
  import opened Model
  import opened Auth

  /** The display state of a slot (`tramo.estado`). */
  datatype Estado = Disponible | ReservadoOtro | Seleccionado | NoSeleccionable | ReservadoPropio

  /** A displayed slot: the fetched record plus `estado` and `esInicioPosible`. */
  datatype Casilla = Casilla(tramo: Tramo, estado: Estado, esInicioPosible: bool)

  /** What the screen shows: the slot list and its error and success messages. */
  datatype Vista = Vista(tramos: seq<Casilla>, mensajeError: Option<string>, mensajeExito: Option<string>)

  const MsgServicioInvalido: string := "Por favor, seleccione un servicio válido."
  const MsgSinHuecos: string := "No hay suficientes horarios consecutivos disponibles para la duración del servicio seleccionado."
  const MsgSinHorarios: string := "No hay horarios definidos por el empleado para esta fecha."
  const MsgErrorCarga: string := "Error al cargar los horarios disponibles. Intente de nuevo."
  const MsgSeleccionePrimero: string := "Por favor, seleccione primero un servicio."
  const MsgErrorBloque: string := "Error al seleccionar el bloque. Algunos tramos no están disponibles."
  const MsgYaReservado: string := "Este horario ya está reservado."
  const MsgNoDisponible: string := "Este horario no está disponible o no puede iniciar la selección para el servicio elegido."
  const MsgDebeSerCliente: string := "Debe estar logueado como cliente para realizar una reserva."
  const MsgSeleccioneTramo: string := "Por favor, seleccione un tramo horario válido."
  const MsgTramosOcupados: string := "Uno o más tramos seleccionados ya no están disponibles. Recarga y vuelve a intentar."
  const MsgServicioNoValido: string := "Servicio no válido seleccionado."
  const MsgEmpleadoFecha: string := "Empleado y fecha deben estar seleccionados."
  const MsgExito: string := "Reserva realizada con éxito"
  const MsgFalloReserva: string := "No se pudo realizar la reserva."

  // ---------------------------------------------------------------- loading

  /** Opened by the employee and not part of an appointment (`disponible && !citaId`). */
  predicate Libre(t: Tramo) {
    t.disponible && !HasCita(t)
  }

  /** The state a fetched slot is shown in. */
  function EstadoInicial(t: Tramo): Estado {
    if HasCita(t) then ReservadoOtro
    else if t.disponible then Disponible
    else NoSeleccionable
  }

  /** The load-time start test: `n` free slots exist from `i` on, and `n > 0`. */
  predicate InicioAlCargar(s: seq<Tramo>, i: int, n: int)
    requires 0 <= i < |s|
  {
    EstadoInicial(s[i]) == Disponible && n > 0 && i + n <= |s| &&
    forall j :: i <= j < i + n ==> Libre(s[j])
  }

  /**
   * The `map` that turns the sorted fetched list into the display list.
   * What each entry holds is stated by `CargaOrdenada`, `CargaInicioSignificado`
   * and `CargaCoherente`.
   */
  function Clasificar(s: seq<Tramo>, n: int): (r: seq<Casilla>)
    ensures |r| == |s|
  {
    seq(|s|, i requires 0 <= i < |s| => Casilla(s[i], EstadoInicial(s[i]), InicioAlCargar(s, i, n)))
  }

  /** The records underneath a display list. */
  function Registros(v: seq<Casilla>): (r: seq<Tramo>)
    ensures |r| == |v|
  {
    seq(|v|, i requires 0 <= i < |v| => v[i].tramo)
  }

  /**
   * The request half of `intentarCargarTramos`: the list is emptied, and when
   * the form is complete a fetch is issued and both messages are cleared.
   */
  function AlIntentarCargar(x: Vista, formularioCompleto: bool): (r: Vista)
    ensures r.tramos == []
    ensures formularioCompleto ==> r.mensajeError.None? && r.mensajeExito.None?
    ensures !formularioCompleto ==> r.mensajeError == x.mensajeError && r.mensajeExito == x.mensajeExito
  {
    if formularioCompleto then Vista([], None, None) else x.(tramos := [])
  }

  /**
   * The response half of `cargarTramosDisponibles`. `respuesta` is `None`
   * when the request failed.
   */
  function AlCargar(x: Vista, svc: Option<Servicio>, respuesta: Option<seq<Tramo>>): (r: Vista)
    ensures r.mensajeExito == x.mensajeExito
    ensures respuesta.None? ==> r.tramos == x.tramos && r.mensajeError == Some(MsgErrorCarga)
    ensures respuesta.Some? && svc.None? ==> r.tramos == [] && r.mensajeError == Some(MsgServicioInvalido)
    ensures respuesta.Some? && svc.Some? ==>
      |r.tramos| == |respuesta.value| && Registros(r.tramos) == OrdenarPorHora(respuesta.value) &&
      r.mensajeError == (if respuesta.value == [] then Some(MsgSinHorarios) else x.mensajeError)
  {
    match respuesta
    case None => x.(mensajeError := Some(MsgErrorCarga))
    case Some(fetched) =>
      if svc.None? then Vista([], Some(MsgServicioInvalido), x.mensajeExito)
      else
        var lista := Clasificar(OrdenarPorHora(fetched), svc.value.numTramos);
        assert Registros(lista) == OrdenarPorHora(fetched);
        var error :=
          if |lista| == 0 && |fetched| > 0 then Some(MsgSinHuecos)
          else if |fetched| == 0 then Some(MsgSinHorarios)
          else x.mensajeError;
        Vista(lista, error, x.mensajeExito)
  }

  // ----------------------------------------------------------- recalculation

  /** The recalculation start test: the `n` slots from `i` on exist and are all shown `Disponible`. */
  predicate InicioPosible(v: seq<Casilla>, i: int, n: int)
    requires 0 <= i < |v|
  {
    v[i].estado == Disponible && i + n <= |v| &&
    forall j :: i <= j < i + n ==> v[j].estado == Disponible
  }

  /**
   * `recalculateEsInicioPosibleForAllTramos`. Its properties are stated by
   * `RecalcularSoloInicios`, `InicioNoSolapaSeleccion` and `RecalcularCoherente`.
   */
  function Recalcular(v: seq<Casilla>, svc: Option<Servicio>): (r: seq<Casilla>)
    ensures |r| == |v|
  {
    seq(|v|, i requires 0 <= i < |v| =>
      v[i].(esInicioPosible := svc.Some? && InicioPosible(v, i, svc.value.numTramos)))
  }

  /** Recalculation changes no slot's record or state, only `esInicioPosible`. */
  lemma RecalcularSoloInicios(v: seq<Casilla>, svc: Option<Servicio>)
    ensures forall i :: 0 <= i < |v| ==>
      Recalcular(v, svc)[i].tramo == v[i].tramo && Recalcular(v, svc)[i].estado == v[i].estado
  {
  }

  /**
   * After recalculation, with no service nothing is a start; otherwise a
   * start's block lies inside the list and holds no selected, booked or
   * blocked slot.
   */
  lemma InicioNoSolapaSeleccion(v: seq<Casilla>, svc: Option<Servicio>, i: int, j: int)
    requires 0 <= i < |v| && Recalcular(v, svc)[i].esInicioPosible
    ensures svc.Some? && i + svc.value.numTramos <= |v|
    ensures i <= j < i + svc.value.numTramos ==> v[j].estado != Seleccionado && v[j].estado != ReservadoPropio
  {
  }

  // ------------------------------------------------------------- selection

  /** A selected slot goes back to `Disponible` if it is free, else to `NoSeleccionable`. */
  function Revertir(c: Casilla): Casilla {
    if c.estado == Seleccionado then
      c.(estado := if Libre(c.tramo) then Disponible else NoSeleccionable)
    else c
  }

  function RevertirTodos(v: seq<Casilla>): (r: seq<Casilla>)
    ensures |r| == |v|
    ensures !HaySeleccion(r)
    ensures forall i :: 0 <= i < |v| ==> r[i].tramo == v[i].tramo
  {
    seq(|v|, i requires 0 <= i < |v| => Revertir(v[i]))
  }

  predicate HaySeleccion(v: seq<Casilla>) {
    exists i :: 0 <= i < |v| && v[i].estado == Seleccionado
  }

  /** `cancelarSeleccion`: only with a service; recalculates only if something was deselected. */
  function CancelarSel(x: Vista, svc: Option<Servicio>): (y: Vista)
    ensures svc.None? ==> y == x
    ensures svc.Some? ==>
      y.mensajeError.None? && y.mensajeExito.None? && !HaySeleccion(y.tramos) && |y.tramos| == |x.tramos| &&
      forall i :: 0 <= i < |x.tramos| ==> y.tramos[i].tramo == x.tramos[i].tramo
  {
    if svc.None? then x
    else
      var r := RevertirTodos(x.tramos);
      RecalcularSoloInicios(r, svc);
      Vista(if HaySeleccion(x.tramos) then Recalcular(r, svc) else r, None, None)
  }

  /** `findIndex(t => t.id === id)`: the first position holding that id, or -1. */
  function IndiceDe(v: seq<Casilla>, id: Option<int>): (i: int)
    ensures -1 <= i < |v|
    ensures i == -1 <==> forall j :: 0 <= j < |v| ==> v[j].tramo.id != id
    ensures 0 <= i ==> v[i].tramo.id == id && forall j :: 0 <= j < i ==> v[j].tramo.id != id
  {
    if v == [] then -1
    else if v[0].tramo.id == id then 0
    else
      var r := IndiceDe(v[1..], id);
      if r == -1 then -1 else r + 1
  }

  /**
   * How many slots from position `p` on, at most `k`, exist and are free:
   * where the selection loop of `seleccionarTramo` stops.
   */
  function LibresDesde(v: seq<Casilla>, p: nat, k: int): (f: nat)
    ensures k > 0 ==> f <= k
    ensures k <= 0 ==> f == 0
    ensures p <= |v| ==> p + f <= |v|
    ensures forall j :: p <= j < p + f ==> j < |v| && Libre(v[j].tramo)
    ensures f < k ==> p + f >= |v| || !Libre(v[p + f].tramo)
    decreases if k <= 0 then 0 else k
  {
    if k <= 0 || p >= |v| || !Libre(v[p].tramo) then 0
    else 1 + LibresDesde(v, p + 1, k - 1)
  }

  /** Marks the `m` slots from `p` on as `Seleccionado`. */
  function Marcar(v: seq<Casilla>, p: nat, m: nat): (r: seq<Casilla>)
    requires p + m <= |v|
    ensures |r| == |v|
    ensures forall i :: 0 <= i < |v| ==> r[i].tramo == v[i].tramo
  {
    seq(|v|, i requires 0 <= i < |v| => if p <= i < p + m then v[i].(estado := Seleccionado) else v[i])
  }

  /**
   * `seleccionarTramo` on the slot at position `k`. The selection starts at
   * the first slot with the clicked slot's id, as `findIndex` finds it.
   */
  function Click(x: Vista, k: nat, svc: Option<Servicio>): (y: Vista)
    requires k < |x.tramos|
    ensures svc.None? ==> y == x.(mensajeError := Some(MsgSeleccionePrimero))
    ensures |y.tramos| == |x.tramos| && forall i :: 0 <= i < |x.tramos| ==> y.tramos[i].tramo == x.tramos[i].tramo
  {
    var v := x.tramos;
    if svc.None? then x.(mensajeError := Some(MsgSeleccionePrimero))
    else if v[k].estado == Seleccionado then CancelarSel(x, svc)
    else if v[k].estado == Disponible && v[k].esInicioPosible then
      var idx := IndiceDe(v, v[k].tramo.id);
      var r := RevertirTodos(v);
      var f := LibresDesde(r, idx, svc.value.numTramos);
      RecalcularSoloInicios(Marcar(r, idx, f), svc);
      if f < svc.value.numTramos then
        CancelarSel(Vista(Marcar(r, idx, f), Some(MsgErrorBloque), x.mensajeExito), svc)
      else
        Vista(Recalcular(Marcar(r, idx, f), svc), None, x.mensajeExito)
    else
      RecalcularSoloInicios(v, svc);
      if v[k].estado == ReservadoOtro || v[k].estado == ReservadoPropio then
        Vista(Recalcular(v, svc), Some(MsgYaReservado), x.mensajeExito)
      else
        Vista(Recalcular(v, svc), Some(MsgNoDisponible), x.mensajeExito)
  }

  // ------------------------------------------------------------- invariant

  /**
   * What holds of the display list between user actions: a slot shown
   * `Disponible` or `Seleccionado` is free, and a slot marked as a possible
   * start passes the recalculation start test.
   */
  ghost predicate Coherente(v: seq<Casilla>, svc: Option<Servicio>) {
    (forall i :: 0 <= i < |v| && (v[i].estado == Disponible || v[i].estado == Seleccionado) ==> Libre(v[i].tramo)) &&
    (forall i :: 0 <= i < |v| && v[i].esInicioPosible ==> svc.Some? && InicioPosible(v, i, svc.value.numTramos))
  }

  /** Ids are unique: two positions never hold the same id. */
  ghost predicate IdsUnicos(v: seq<Casilla>) {
    forall i, j :: 0 <= i < j < |v| ==> v[i].tramo.id != v[j].tramo.id
  }

  lemma RecalcularCoherente(v: seq<Casilla>, svc: Option<Servicio>)
    requires forall i :: 0 <= i < |v| && (v[i].estado == Disponible || v[i].estado == Seleccionado) ==> Libre(v[i].tramo)
    ensures Coherente(Recalcular(v, svc), svc)
  {
    var r := Recalcular(v, svc);
    forall i | 0 <= i < |r| && r[i].esInicioPosible
      ensures svc.Some? && InicioPosible(r, i, svc.value.numTramos)
    {
      assert InicioPosible(v, i, svc.value.numTramos);
    }
  }

  /** Reverting turns only selected slots into free `Disponible` ones or `NoSeleccionable` ones. */
  lemma RevertirCoherente(v: seq<Casilla>, svc: Option<Servicio>)
    requires Coherente(v, svc)
    ensures Coherente(RevertirTodos(v), svc)
    ensures !HaySeleccion(RevertirTodos(v))
  {
    var r := RevertirTodos(v);
    forall i | 0 <= i < |r| && r[i].esInicioPosible
      ensures svc.Some? && InicioPosible(r, i, svc.value.numTramos)
    {
      assert v[i].esInicioPosible;
      assert InicioPosible(v, i, svc.value.numTramos);
      forall j | i <= j < i + svc.value.numTramos ensures r[j].estado == Disponible {
        assert v[j].estado == Disponible;
      }
    }
  }

  /** `cancelarSeleccion` keeps the invariant, with or without a selected service. */
  lemma CancelarCoherente(x: Vista, svc: Option<Servicio>)
    requires Coherente(x.tramos, svc)
    ensures Coherente(CancelarSel(x, svc).tramos, svc)
  {
    if svc.Some? {
      CancelarDeseleccionaTodo(x, svc);
    }
  }

  /** `cancelarSeleccion` keeps the invariant and leaves nothing selected. */
  lemma {:induction false} CancelarDeseleccionaTodo(x: Vista, svc: Option<Servicio>)
    requires Coherente(x.tramos, svc) && svc.Some?
    ensures var y := CancelarSel(x, svc).tramos;
      Coherente(y, svc) && !HaySeleccion(y) && |y| == |x.tramos| &&
      (forall i :: 0 <= i < |y| ==> y[i].tramo == x.tramos[i].tramo && y[i].estado == Revertir(x.tramos[i]).estado)
    ensures CancelarSel(x, svc).mensajeError.None? && CancelarSel(x, svc).mensajeExito.None?
  {
    var r := RevertirTodos(x.tramos);
    RevertirCoherente(x.tramos, svc);
    if HaySeleccion(x.tramos) {
      RecalcularCoherente(r, svc);
      RecalcularSoloInicios(r, svc);
    }
  }

  /** The selection made by a click on a start, before recalculation. */
  lemma MarcarBloque(r: seq<Casilla>, p: nat, n: int)
    requires p <= |r| && LibresDesde(r, p, n) >= n
    ensures var m := Marcar(r, p, LibresDesde(r, p, n));
      forall i :: 0 <= i < |r| ==>
        m[i].tramo == r[i].tramo &&
        (p <= i < p + n ==> m[i].estado == Seleccionado) &&
        (!(p <= i < p + n) ==> m[i].estado == r[i].estado)
  {
  }

  /**
   * Clicking a possible start, with unique ids and the invariant in force,
   * selects exactly the `n` slots from the clicked one on; every other slot
   * keeps its state, except that a previously selected slot is reverted.
   */
  lemma {:induction false} ClickEnInicioSeleccionaBloque(x: Vista, k: nat, svc: Option<Servicio>)
    requires k < |x.tramos| && svc.Some?
    requires Coherente(x.tramos, svc) && IdsUnicos(x.tramos)
    requires x.tramos[k].estado == Disponible && x.tramos[k].esInicioPosible
    ensures var y := Click(x, k, svc);
      var n := svc.value.numTramos;
      |y.tramos| == |x.tramos| && y.mensajeError.None? && y.mensajeExito == x.mensajeExito &&
      (forall i :: 0 <= i < |y.tramos| ==> y.tramos[i].tramo == x.tramos[i].tramo) &&
      (forall i :: 0 <= i < |y.tramos| ==> (y.tramos[i].estado == Seleccionado <==> k <= i < k + n)) &&
      (forall i :: 0 <= i < |y.tramos| && !(k <= i < k + n) ==> y.tramos[i].estado == Revertir(x.tramos[i]).estado)
  {
    var v := x.tramos;
    var n := svc.value.numTramos;
    var idx := IndiceDe(v, v[k].tramo.id);
    assert idx == k;
    var r := RevertirTodos(v);
    assert InicioPosible(v, k, n);
    forall j | k <= j < k + n ensures j < |r| && Libre(r[j].tramo) {
      assert v[j].estado == Disponible;
    }
    var f := LibresDesde(r, k, n);
    assert f >= n;
    MarcarBloque(r, k, n);
    RecalcularSoloInicios(Marcar(r, k, f), svc);
  }

  /** Clicking a selected slot deselects everything and clears both messages. */
  lemma ClickEnSeleccionadoDeselecciona(x: Vista, k: nat, svc: Option<Servicio>)
    requires k < |x.tramos| && svc.Some? && Coherente(x.tramos, svc)
    requires x.tramos[k].estado == Seleccionado
    ensures var y := Click(x, k, svc);
      !HaySeleccion(y.tramos) && y.mensajeError.None? && y.mensajeExito.None? &&
      |y.tramos| == |x.tramos| &&
      forall i :: 0 <= i < |y.tramos| ==> y.tramos[i].estado == Revertir(x.tramos[i]).estado
  {
    CancelarDeseleccionaTodo(x, svc);
  }

  /**
   * Clicking a booked or blocked slot, or a `Disponible` slot that is not a
   * start, changes no slot's state and sets an error message.
   */
  lemma ClickRechazadoNoCambiaEstados(x: Vista, k: nat, svc: Option<Servicio>)
    requires k < |x.tramos|
    requires x.tramos[k].estado in {ReservadoOtro, ReservadoPropio, NoSeleccionable} ||
             (x.tramos[k].estado == Disponible && !x.tramos[k].esInicioPosible)
    ensures var y := Click(x, k, svc);
      y.mensajeExito == x.mensajeExito && |y.tramos| == |x.tramos| &&
      y.mensajeError == Some(
        if svc.None? then MsgSeleccionePrimero
        else if x.tramos[k].estado in {ReservadoOtro, ReservadoPropio} then MsgYaReservado
        else MsgNoDisponible) &&
      forall i :: 0 <= i < |y.tramos| ==> y.tramos[i].estado == x.tramos[i].estado && y.tramos[i].tramo == x.tramos[i].tramo
  {
    RecalcularSoloInicios(x.tramos, svc);
  }

  /** Marking free slots keeps "every slot shown `Disponible` or `Seleccionado` is free". */
  lemma MarcarLibres(r: seq<Casilla>, p: nat, f: nat)
    requires p + f <= |r|
    requires forall i :: 0 <= i < |r| && (r[i].estado == Disponible || r[i].estado == Seleccionado) ==> Libre(r[i].tramo)
    requires forall j :: p <= j < p + f ==> Libre(r[j].tramo)
    ensures var m := Marcar(r, p, f);
      forall i :: 0 <= i < |m| && (m[i].estado == Disponible || m[i].estado == Seleccionado) ==> Libre(m[i].tramo)
  {
    var m := Marcar(r, p, f);
    forall i | 0 <= i < |m| && (m[i].estado == Disponible || m[i].estado == Seleccionado) ensures Libre(m[i].tramo) {
      if !(p <= i < p + f) {
        assert m[i] == r[i];
      }
    }
  }

  /** A block cut short by a taken slot is marked, then deselected again: the invariant holds after. */
  lemma BloqueIncompletoCoherente(r: seq<Casilla>, p: nat, f: nat, exito: Option<string>, svc: Option<Servicio>)
    requires p + f <= |r| && svc.Some? && Coherente(r, svc) && !HaySeleccion(r)
    requires forall j :: p <= j < p + f ==> Libre(r[j].tramo)
    ensures Coherente(CancelarSel(Vista(Marcar(r, p, f), Some(MsgErrorBloque), exito), svc).tramos, svc)
  {
    var m := Marcar(r, p, f);
    MarcarLibres(r, p, f);
    if HaySeleccion(m) {
      RecalcularCoherente(RevertirTodos(m), svc);
    } else {
      assert RevertirTodos(m) == m;
    }
  }

  /** A click on a possible start keeps the invariant, whether or not the whole block could be marked. */
  lemma ClickEnInicioCoherente(x: Vista, k: nat, svc: Option<Servicio>)
    requires k < |x.tramos| && Coherente(x.tramos, svc) && svc.Some?
    requires x.tramos[k].estado == Disponible && x.tramos[k].esInicioPosible
    ensures Coherente(Click(x, k, svc).tramos, svc)
  {
    var v := x.tramos;
    var idx := IndiceDe(v, v[k].tramo.id);
    var r := RevertirTodos(v);
    var f := LibresDesde(r, idx, svc.value.numTramos);
    RevertirCoherente(v, svc);
    if f < svc.value.numTramos {
      BloqueIncompletoCoherente(r, idx, f, x.mensajeExito, svc);
    } else {
      MarcarLibres(r, idx, f);
      RecalcularCoherente(Marcar(r, idx, f), svc);
    }
  }

  /** Every click keeps the invariant. */
  lemma ClickCoherente(x: Vista, k: nat, svc: Option<Servicio>)
    requires k < |x.tramos| && Coherente(x.tramos, svc)
    ensures Coherente(Click(x, k, svc).tramos, svc)
  {
    var v := x.tramos;
    if svc.None? {
    } else if v[k].estado == Seleccionado {
      CancelarDeseleccionaTodo(x, svc);
    } else if v[k].estado == Disponible && v[k].esInicioPosible {
      ClickEnInicioCoherente(x, k, svc);
    } else {
      RecalcularCoherente(v, svc);
    }
  }

  // ----------------------------------------------------------- confirmation

  /** The positions of the selected slots, in increasing order. */
  ghost function Posiciones(v: seq<Casilla>): (p: seq<nat>)
    ensures forall i :: 0 <= i < |p| ==> p[i] < |v| && v[p[i]].estado == Seleccionado
    ensures forall i, j :: 0 <= i < j < |p| ==> p[i] < p[j]
    ensures forall k :: 0 <= k < |v| && v[k].estado == Seleccionado ==> k in p
  {
    if v == [] then []
    else
      var init := v[..|v| - 1];
      var p := Posiciones(init);
      assert forall k :: 0 <= k < |init| ==> init[k] == v[k];
      p + (if v[|v| - 1].estado == Seleccionado then [|v| - 1] else [])
  }

  /**
   * `getTramosSeleccionados`: the selected slots, in display order — the
   * slots at `Posiciones(v)`, one for each.
   */
  function Seleccionados(v: seq<Casilla>): (r: seq<Casilla>)
    ensures |r| == |Posiciones(v)|
    ensures forall i :: 0 <= i < |r| ==> r[i] == v[Posiciones(v)[i]]
  {
    if v == [] then []
    else
      var init := v[..|v| - 1];
      var last := v[|v| - 1];
      var rest := Seleccionados(init);
      var r := rest + (if last.estado == Seleccionado then [last] else []);
      assert Posiciones(v) == Posiciones(init) + (if last.estado == Seleccionado then [|v| - 1] else []);
      assert forall i :: 0 <= i < |rest| ==> r[i] == v[Posiciones(v)[i]] by {
        forall i | 0 <= i < |rest| ensures r[i] == v[Posiciones(v)[i]] {
          assert Posiciones(v)[i] == Posiciones(init)[i];
          assert init[Posiciones(init)[i]] == v[Posiciones(init)[i]];
        }
      }
      r
  }

  /** A slot is in the selection iff it is shown `Seleccionado`. */
  lemma SeleccionadosMiembros(v: seq<Casilla>, c: Casilla)
    ensures c in Seleccionados(v) <==> c in v && c.estado == Seleccionado
  {
    var r := Seleccionados(v);
    var p := Posiciones(v);
    if c in v && c.estado == Seleccionado {
      var k :| 0 <= k < |v| && v[k] == c;
      assert k in p;
      var m :| 0 <= m < |p| && p[m] == k;
      assert r[m] == c;
    }
    if c in r {
      var i :| 0 <= i < |r| && r[i] == c;
      assert v[p[i]] == c;
    }
  }

  /** The selection is empty iff no slot is shown `Seleccionado`. */
  lemma SeleccionadosVacio(v: seq<Casilla>)
    ensures HaySeleccion(v) <==> Seleccionados(v) != []
  {
    var p := Posiciones(v);
    if HaySeleccion(v) {
      var k :| 0 <= k < |v| && v[k].estado == Seleccionado;
      assert k in p;
    }
    if p != [] {
      assert v[p[0]].estado == Seleccionado;
    }
  }

  /** The first selected slot in display order heads the selection and supplies `primerTramoId`. */
  lemma PrimerSeleccionado(v: seq<Casilla>, k: nat)
    requires k < |v| && v[k].estado == Seleccionado
    requires forall j :: 0 <= j < k ==> v[j].estado != Seleccionado
    ensures Seleccionados(v) != [] && Seleccionados(v)[0] == v[k]
    ensures IdsSeleccionados(v)[0] == v[k].tramo.id
  {
    var p := Posiciones(v);
    assert k in p;
    var m :| 0 <= m < |p| && p[m] == k;
    assert p[0] >= k;
    assert p[0] <= p[m];
  }

  /** The ids sent with a booking: those of the selected slots, in display order. */
  function IdsSeleccionados(v: seq<Casilla>): (ids: seq<Option<int>>)
    ensures |ids| == |Posiciones(v)|
    ensures forall i :: 0 <= i < |ids| ==> ids[i] == v[Posiciones(v)[i]].tramo.id
  {
    var s := Seleccionados(v);
    seq(|s|, i requires 0 <= i < |s| => s[i].tramo.id)
  }

  /** The booking request (`ReservaRequestDTO`). */
  datatype ReservaRequest = ReservaRequest(
    primerTramoId: Option<int>,
    clienteId: int,
    servicioId: int,
    idsTramos: seq<Option<int>>,
    tramoId: Option<int>,
    empleadoId: int,
    fecha: int)

  /** The outcome of the local checks: send the request, or show a message (and maybe reload). */
  datatype Decision = Enviar(request: ReservaRequest) | Rechazar(mensaje: string, recargar: bool)

  /** The selection has gone stale: some selected slot is no longer open or already has a client. */
  predicate SeleccionObsoleta(sel: seq<Casilla>) {
    exists c :: c in sel && (!c.tramo.disponible || c.tramo.cliente.Some?)
  }

  /** The local checks of `confirmarReserva`, in the source's order. */
  function DecidirReserva(v: seq<Casilla>, user: Option<AuthUser>, svc: Option<Servicio>,
                          empleadoId: Option<int>, fecha: Option<int>): (d: Decision)
    ensures d.Enviar? <==>
      user.Some? && user.value.rol == "CLIENTE" &&
      Seleccionados(v) != [] && NumTruthy(Seleccionados(v)[0].tramo.id) &&
      !SeleccionObsoleta(Seleccionados(v)) &&
      svc.Some? && NumTruthy(svc.value.id) &&
      NumTruthy(empleadoId) && fecha.Some?
    ensures d.Enviar? ==>
      d.request.idsTramos == IdsSeleccionados(v) &&
      d.request.primerTramoId == d.request.tramoId == d.request.idsTramos[0] &&
      NumTruthy(d.request.primerTramoId) &&
      d.request.clienteId == user.value.id && Some(d.request.servicioId) == svc.value.id &&
      Some(d.request.empleadoId) == empleadoId && Some(d.request.fecha) == fecha
    ensures d.Rechazar? && d.recargar <==>
      user.Some? && user.value.rol == "CLIENTE" &&
      Seleccionados(v) != [] && NumTruthy(Seleccionados(v)[0].tramo.id) &&
      SeleccionObsoleta(Seleccionados(v))
  {
    var sel := Seleccionados(v);
    if user.None? || user.value.rol != "CLIENTE" then Rechazar(MsgDebeSerCliente, false)
    else if |sel| == 0 || !NumTruthy(sel[0].tramo.id) then Rechazar(MsgSeleccioneTramo, false)
    else if SeleccionObsoleta(sel) then Rechazar(MsgTramosOcupados, true)
    else if svc.None? || !NumTruthy(svc.value.id) then Rechazar(MsgServicioNoValido, false)
    else if !NumTruthy(empleadoId) || fecha.None? then Rechazar(MsgEmpleadoFecha, false)
    else
      var ids := IdsSeleccionados(v);
      Enviar(ReservaRequest(ids[0], user.value.id, svc.value.id.value, ids, ids[0], empleadoId.value, fecha.value))
  }

  /**
   * `confirmarReserva` up to the request: both messages are cleared; a
   * rejection shows its message and, for a stale selection, reloads.
   */
  function AlConfirmar(x: Vista, user: Option<AuthUser>, svc: Option<Servicio>,
                       empleadoId: Option<int>, fecha: Option<int>, formularioCompleto: bool): (r: (Vista, Option<ReservaRequest>))
    ensures var d := DecidirReserva(x.tramos, user, svc, empleadoId, fecha);
      r.0.mensajeExito.None? &&
      (d.Enviar? ==> r == (x.(mensajeError := None, mensajeExito := None), Some(d.request))) &&
      (d.Rechazar? ==> r.1.None?) &&
      (d.Rechazar? && !d.recargar ==> r.0.tramos == x.tramos && r.0.mensajeError == Some(d.mensaje)) &&
      (d.Rechazar? && d.recargar ==> r.0.tramos == [])
  {
    var y := x.(mensajeError := None, mensajeExito := None);
    match DecidirReserva(x.tramos, user, svc, empleadoId, fecha)
    case Enviar(req) => (y, Some(req))
    case Rechazar(msg, recargar) =>
      var z := y.(mensajeError := Some(msg));
      (if recargar then AlIntentarCargar(z, formularioCompleto) else z, None)
  }

  /**
   * The success handler of `confirmarReserva`: every slot whose id is one of
   * the currently selected ids becomes `ReservadoPropio`, then starts are
   * recalculated.
   */
  function AlReservar(x: Vista, svc: Option<Servicio>): (y: Vista)
    ensures y.mensajeExito == Some(MsgExito) && y.mensajeError == x.mensajeError
    ensures |y.tramos| == |x.tramos| && forall i :: 0 <= i < |x.tramos| ==> y.tramos[i].tramo == x.tramos[i].tramo
  {
    RecalcularSoloInicios(MarcarPropios(x.tramos, IdsSeleccionados(x.tramos)), svc);
    Vista(Recalcular(MarcarPropios(x.tramos, IdsSeleccionados(x.tramos)), svc), x.mensajeError, Some(MsgExito))
  }

  /** Every slot with a truthy id among `ids` becomes `ReservadoPropio` and stops being a start. */
  function MarcarPropios(v: seq<Casilla>, ids: seq<Option<int>>): (r: seq<Casilla>)
    ensures |r| == |v|
    ensures forall i :: 0 <= i < |v| ==> r[i].tramo == v[i].tramo
    ensures forall i :: 0 <= i < |v| && r[i] != v[i] ==> r[i].estado == ReservadoPropio && !r[i].esInicioPosible && v[i].tramo.id in ids
  {
    seq(|v|, i requires 0 <= i < |v| =>
      if NumTruthy(v[i].tramo.id) && v[i].tramo.id in ids
      then v[i].(estado := ReservadoPropio, esInicioPosible := false)
      else v[i])
  }

  /**
   * The message shown when the booking fails: the backend's own message, else
   * the HTTP error's message, else a default ("" stands for an absent one).
   */
  function MensajeFallo(mensajeBackend: string, mensajeHttp: string): (m: string)
    ensures m != ""
    ensures mensajeBackend != "" ==> m == mensajeBackend
    ensures mensajeBackend == "" && mensajeHttp != "" ==> m == mensajeHttp
  {
    OrDefault(OrDefault(mensajeBackend, mensajeHttp), MsgFalloReserva)
  }

  /**
   * The error handler of `confirmarReserva`: shows the failure message and
   * reloads the slots.
   */
  function AlFallarReserva(x: Vista, mensajeBackend: string, mensajeHttp: string, formularioCompleto: bool): (y: Vista)
    ensures y.tramos == []
    ensures !formularioCompleto ==> y.mensajeError == Some(MensajeFallo(mensajeBackend, mensajeHttp)) && y.mensajeExito == x.mensajeExito
  {
    AlIntentarCargar(x.(mensajeError := Some(MensajeFallo(mensajeBackend, mensajeHttp))), formularioCompleto)
  }

  /**
   * When the form is complete, the reload that follows a failed booking or a
   * stale selection clears the message just set: the screen ends with no
   * error shown and an empty list.
   */
  lemma RecargaBorraMensaje(x: Vista, mensajeBackend: string, mensajeHttp: string,
                            user: Option<AuthUser>, svc: Option<Servicio>, empleadoId: Option<int>, fecha: Option<int>)
    ensures AlFallarReserva(x, mensajeBackend, mensajeHttp, true) == Vista([], None, None)
    ensures DecidirReserva(x.tramos, user, svc, empleadoId, fecha).Rechazar? &&
            DecidirReserva(x.tramos, user, svc, empleadoId, fecha).recargar ==>
            AlConfirmar(x, user, svc, empleadoId, fecha, true) == (Vista([], None, None), None)
    ensures AlFallarReserva(x, mensajeBackend, mensajeHttp, false).mensajeError == Some(MensajeFallo(mensajeBackend, mensajeHttp))
  {
  }

  /**
   * The message for "not enough consecutive slots" is never shown on load:
   * the display list always has as many entries as the response.
   */
  lemma SinHuecosNuncaAlCargar(x: Vista, svc: Option<Servicio>, respuesta: Option<seq<Tramo>>)
    requires x.mensajeError != Some(MsgSinHuecos)
    ensures AlCargar(x, svc, respuesta).mensajeError != Some(MsgSinHuecos)
  {
  }

  /**
   * With unique ids and an id on every selected slot, a successful booking
   * turns exactly the selected slots into `ReservadoPropio` (no longer
   * possible starts) and changes no other slot's state.
   */
  lemma {:induction false} ReservaMarcaSeleccion(x: Vista, svc: Option<Servicio>)
    requires IdsUnicos(x.tramos)
    requires forall c :: c in x.tramos && c.estado == Seleccionado ==> NumTruthy(c.tramo.id)
    ensures var y := AlReservar(x, svc);
      |y.tramos| == |x.tramos| && !HaySeleccion(y.tramos) && y.mensajeExito == Some(MsgExito) &&
      forall i :: 0 <= i < |y.tramos| ==>
        y.tramos[i].tramo == x.tramos[i].tramo &&
        y.tramos[i].estado == (if x.tramos[i].estado == Seleccionado then ReservadoPropio else x.tramos[i].estado) &&
        (x.tramos[i].estado == Seleccionado ==> !y.tramos[i].esInicioPosible)
  {
    var v := x.tramos;
    var ids := IdsSeleccionados(v);
    var y := AlReservar(x, svc);
    forall i | 0 <= i < |v|
      ensures (NumTruthy(v[i].tramo.id) && v[i].tramo.id in ids) <==> v[i].estado == Seleccionado
    {
      if v[i].estado == Seleccionado {
        assert v[i] in Seleccionados(v);
        var j :| 0 <= j < |Seleccionados(v)| && Seleccionados(v)[j] == v[i];
        assert ids[j] == v[i].tramo.id;
      }
      if v[i].tramo.id in ids {
        var j :| 0 <= j < |ids| && ids[j] == v[i].tramo.id;
        var c := Seleccionados(v)[j];
        assert c in v;
        var p :| 0 <= p < |v| && v[p] == c;
        assert p == i;
      }
    }
    RecalcularSoloInicios(MarcarPropios(v, ids), svc);
    assert forall i :: 0 <= i < |y.tramos| ==> y.tramos[i].estado != Seleccionado;
  }

  /** A successful booking keeps the invariant. */
  lemma ReservaCoherente(x: Vista, svc: Option<Servicio>)
    requires Coherente(x.tramos, svc)
    ensures Coherente(AlReservar(x, svc).tramos, svc)
  {
    RecalcularCoherente(MarcarPropios(x.tramos, IdsSeleccionados(x.tramos)), svc);
  }

  // ------------------------------------------------------------ load facts

  /**
   * The display list built on load holds the fetched slots ordered by start
   * time, each shown `ReservadoOtro`, `Disponible` or `NoSeleccionable`
   * according to its fields; nothing is selected or booked by the viewer.
   */
  lemma CargaOrdenada(x: Vista, svc: Servicio, fetched: seq<Tramo>)
    ensures var v := AlCargar(x, Some(svc), Some(fetched)).tramos;
      |v| == |fetched| && multiset(Registros(v)) == multiset(fetched) &&
      (forall i, j :: 0 <= i <= j < |v| ==> v[i].tramo.horaInicio <= v[j].tramo.horaInicio) &&
      (forall i :: 0 <= i < |v| ==>
        (v[i].estado == ReservadoOtro <==> HasCita(v[i].tramo)) &&
        (v[i].estado == Disponible <==> Libre(v[i].tramo)) &&
        (v[i].estado == NoSeleccionable <==> !HasCita(v[i].tramo) && !v[i].tramo.disponible))
  {
    var s := OrdenarPorHora(fetched);
    var v := Clasificar(s, svc.numTramos);
    assert Registros(v) == s;
  }

  /**
   * On load, a slot is a possible start iff the `n > 0` slots from it exist
   * and are all free. This spells out the definition `InicioAlCargar` through
   * `Clasificar`; the facts proved about it are `CargaCoherente` and
   * `CargaComoRecalculo`.
   */
  lemma CargaInicioSignificado(s: seq<Tramo>, n: int, i: int)
    requires 0 <= i < |s|
    ensures Clasificar(s, n)[i].esInicioPosible <==>
      n > 0 && i + n <= |s| && forall j :: i <= j < i + n ==> s[j].disponible && !HasCita(s[j])
  {
  }

  /** The list built on load satisfies the invariant. */
  lemma CargaCoherente(s: seq<Tramo>, svc: Servicio)
    ensures Coherente(Clasificar(s, svc.numTramos), Some(svc))
  {
    var v := Clasificar(s, svc.numTramos);
    forall i | 0 <= i < |v| && v[i].esInicioPosible ensures InicioPosible(v, i, svc.numTramos) {
      forall j | i <= j < i + svc.numTramos ensures v[j].estado == Disponible {
        assert Libre(s[j]);
      }
    }
  }

  /**
   * For a service of at least one slot, recalculating right after a load
   * changes nothing: the two start tests of the screen agree.
   */
  lemma CargaComoRecalculo(s: seq<Tramo>, svc: Servicio)
    requires svc.numTramos > 0
    ensures Recalcular(Clasificar(s, svc.numTramos), Some(svc)) == Clasificar(s, svc.numTramos)
  {
    var n := svc.numTramos;
    var v := Clasificar(s, n);
    var r := Recalcular(v, Some(svc));
    forall i | 0 <= i < |v| ensures r[i] == v[i] {
      if InicioPosible(v, i, n) {
        forall j | i <= j < i + n ensures Libre(s[j]) {
          assert v[j].estado == Disponible;
        }
      }
      if v[i].esInicioPosible {
        forall j | i <= j < i + n ensures v[j].estado == Disponible {
          assert Libre(s[j]);
        }
      }
    }
  }

  /**
   * For a service of zero slots the two tests disagree: on load a free slot
   * is not a start, after any recalculation it is.
   */
  lemma ServicioSinTramosDiscrepa(t: Tramo, svc: Servicio)
    requires Libre(t) && svc.numTramos == 0
    ensures !Clasificar([t], 0)[0].esInicioPosible
    ensures Recalcular(Clasificar([t], 0), Some(svc))[0].esInicioPosible
  {
  }

  /** Loading leaves the invariant in force, whatever the response. */
  lemma AlCargarCoherente(x: Vista, svc: Option<Servicio>, respuesta: Option<seq<Tramo>>)
    requires Coherente(x.tramos, svc)
    ensures Coherente(AlCargar(x, svc, respuesta).tramos, svc)
  {
    if respuesta.Some? && svc.Some? {
      CargaCoherente(OrdenarPorHora(respuesta.value), svc.value);
    }
  }
}
