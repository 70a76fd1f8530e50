# Hairdresser booking app: slot booking, appointment grouping and role checks

This project models the logic at the core of a hairdresser booking web
application (an Angular front end) and proves properties of it:

- **Booking screen** (`ReservarCitaComponent`). A day's slots (`tramos`)
  arrive from the backend. They are sorted by start time, and each is shown
  as taken by someone else (`reservadoOtro`), free (`disponible`) or
  blocked (`noSeleccionable`). Each slot is also flagged as a possible start
  (`esInicioPosible`) for the chosen service, which needs `numTramos`
  consecutive slots. Clicking a possible start selects the whole block, and
  clicking a selected slot deselects everything. Before a booking request is
  sent, a series of local checks runs. After a successful booking the
  selected slots become the client's own (`reservadoPropio`).
  Module `Reserva` states every handler as a function on the displayed list
  (`Vista`) and proves its properties. Module `ReservarCita` holds the
  component as a class: the list is an `array` updated in place, and each
  method is proved to perform the matching transition.
- **Cancel screen** (`CancelarReservaClienteComponent`). The client's booked
  slots are filtered and grouped by `reservaId` into appointments. A slot
  without a `reservaId` gets a synthetic key of its own, built with a
  counter. Each appointment is summarised from its earliest and latest
  slot, and the summaries are sorted by date, then start time. Module
  `CancelarReserva` defines the grouping as a fold and proves that it is a
  partition. The component's method runs the source's loops and is proved
  equal to that fold.
- **Session and access** (`AuthService`, `roleGuard`). This covers the role
  hierarchy (ADMIN implies EMPLEADO), the validation of the user record
  from `/auth/me`, the browser storage (a map from keys to stored values),
  the page reached after login, and the route guard's decision.

Times of day are minutes and dates are day numbers. The source compares
zero-padded `"HH:MM"` and `"YYYY-MM-DD"` strings with `localeCompare`, which
orders them the same way. JavaScript truthiness is written out: a numeric
id is truthy when present and non-zero (`Common.NumTruthy`), and a string
when present and non-empty (`Common.StrTruthy`). Backend calls are replaced
by their outcomes, which the handlers take as parameters. `Array.sort` with
a comparator is modelled as a stable insertion sort (`Sorting.Sort`).

Some behaviour of the source, as the lemmas state it:

- The reload that follows a failed booking or a stale selection clears the
  error message just set, because `cargarTramosDisponibles` nulls both
  messages (`Reserva.RecargaBorraMensaje`). The success message of a
  cancellation is cleared the same way by the reload after it
  (`CancelarReserva.CancelarReservaClienteComponent.AlCancelarConExito`).
- On load the "not enough consecutive slots" message never appears: the
  display list always has as many entries as the response
  (`Reserva.SinHuecosNuncaAlCargar`).
- The load-time start test requires `numTramos > 0`, but the recalculation
  does not. For a zero-slot service, every free slot becomes a start after
  the first click (`Reserva.ServicioSinTramosDiscrepa`). For `numTramos > 0`
  the two tests agree (`Reserva.CargaComoRecalculo`).

## Model

| member | source | states |
|---|---|---|
| Auth.Granted | src/app/shared/services/auth.service.ts:217-228 | a role name grants some role iff it is CLIENTE, EMPLEADO or ADMIN |
| Auth.UserHasRole | src/app/shared/services/auth.service.ts:217-228 | `hasRole`: false without a user; ADMIN grants ADMIN and EMPLEADO, EMPLEADO grants EMPLEADO, CLIENTE grants CLIENTE |
| Auth.RoleHierarchy | src/app/shared/services/auth.service.ts:221-227 | ADMIN implies EMPLEADO; a CLIENTE has neither staff role and a staff member is not a CLIENTE |
| Auth.ValidarUsuario | src/app/shared/services/auth.service.ts:141-174 | a record is accepted iff it exists, has an id, non-empty email, nombre and rol, and rol is one of the three roles; the user built has exactly those four fields; the role error is given exactly when every field is present and the rol is not one of the three |
| Auth.DestinoTrasLogin | src/app/shared/services/auth.service.ts:118 | the remembered URL if truthy, else `/cliente` exactly for a CLIENTE and `/empleado` exactly for staff |
| Auth.UserFromStorage | src/app/shared/services/auth.service.ts:40-54 | the entry is restored iff it is present and parses to a truthy value, and the user is that value; a missing, empty, falsy (`null`) or unparsable entry gives no user |
| Auth.RestaurarSinUsuario | src/app/shared/services/auth.service.ts:40-54 | a stored `{}` restores a logged-in session with no role; a stored `null` restores nobody and the entry is kept |
| Auth.StorageRoundTrip | src/app/shared/services/auth.service.ts:40-69 | a user written under `currentUser` is read back unchanged; after both session keys are removed nothing is read back |
| Auth.AuthService.constructor | src/app/shared/services/auth.service.ts:29-54 | the service starts with the value restored from storage; only a non-empty entry that does not parse is removed, and every other entry is kept |
| Auth.AuthService.IsLoggedIn | src/app/shared/services/auth.service.ts:215 | logged in iff there is a current user; nobody else has any role |
| Auth.AuthService.HasRole | src/app/shared/services/auth.service.ts:217-228 | holding a role implies being logged in, and follows the hierarchy |
| Auth.AuthService.IsAdmin | src/app/shared/services/auth.service.ts:229 | admin iff the user's rol is ADMIN; an admin is also EMPLEADO and not CLIENTE |
| Auth.AuthService.SetUserInStorage | src/app/shared/services/auth.service.ts:56-69 | a user is written under `currentUser`; `None` removes both `currentUser` and `authToken`; the current user becomes the argument |
| Auth.AuthService.ClearUserAndTokenFromStorage | src/app/shared/services/auth.service.ts:71-78 | both keys are removed, nothing else changes, and nobody is logged in |
| Auth.AuthService.FetchUserDetails | src/app/shared/services/auth.service.ts:133-182 | the result is the validation outcome; `authToken` is stored only for a non-empty token; a rejected record clears the session |
| Auth.AuthService.Login | src/app/shared/services/auth.service.ts:80-131 | a non-200 login fails; on success the user is stored, the target page is chosen and `redirectUrl` is cleared; on failure the session is cleared and the user is sent to `/auth/login` |
| Auth.AuthService.Logout | src/app/shared/services/auth.service.ts:184-201 | whatever the backend answers, both keys are removed and the user is sent to `/auth/login` |
| Guards.RoleGuard | src/app/shared/guards/role.guard.ts:6-39 | allows iff a user is logged in and holds one of the listed roles; navigates iff it denies; records the URL iff nobody is logged in; missing or empty roles send the user to `/auth/login`; a refused CLIENTE goes to `/cliente`, a refused EMPLEADO or ADMIN to `/empleado`, a user with an unknown rol to `/auth/login` |
| Guards.DenialLandsOnOwnDashboard | src/app/shared/guards/role.guard.ts:29-38 | a denied user with a known role is sent to the dashboard of that role, and that dashboard's guard admits them |
| Guards.LoginLandsOnAdmittedDashboard | src/app/app.routes.ts:29-44 | with no remembered URL, login sends the user to a dashboard whose guard admits them |
| Guards.EmpleadoOnAdminRoute | src/app/shared/guards/role.guard.ts:24-34 | an EMPLEADO on an ADMIN-only route is refused and sent to `/empleado` |
| Model.OrdenarPorHora | src/app/cliente/reservar-cita/reservar-cita.component.ts:316 | the sorted slots are a reordering of the input, in non-decreasing start time |
| Sorting.SortEstable | src/app/cliente/reservar-cita/reservar-cita.component.ts:316 | the comparator sort is stable: elements it ranks equal keep their input order |
| Model.OrdenarPorHoraEstable | src/app/cliente/reservar-cita/reservar-cita.component.ts:316 | slots with the same start time keep the order in which the backend sent them |
| Reserva.CargaOrdenada | src/app/cliente/reservar-cita/reservar-cita.component.ts:316-353 | the display list is the fetched list sorted by start time, with the same length; each slot is `reservadoOtro` iff it has a `citaId`, `disponible` iff it is open and has none, `noSeleccionable` otherwise |
| Reserva.CargaInicioSignificado | src/app/cliente/reservar-cita/reservar-cita.component.ts:320-346 | on load a slot is a start iff `numTramos > 0` and the `numTramos` slots from it exist and are all open with no `citaId` |
| Reserva.CargaCoherente | src/app/cliente/reservar-cita/reservar-cita.component.ts:319-353 | the loaded list satisfies the screen invariant `Coherente` |
| Reserva.CargaComoRecalculo | src/app/cliente/reservar-cita/reservar-cita.component.ts:418-449 | for `numTramos > 0`, recalculating right after a load changes nothing |
| Reserva.ServicioSinTramosDiscrepa | src/app/cliente/reservar-cita/reservar-cita.component.ts:328-343 | for `numTramos == 0`, a free slot is no start on load but is one after recalculation |
| Reserva.AlCargarCoherente | src/app/cliente/reservar-cita/reservar-cita.component.ts:306-365 | loading keeps the invariant whatever the response |
| Reserva.SinHuecosNuncaAlCargar | src/app/cliente/reservar-cita/reservar-cita.component.ts:355-359 | the load never sets the "not enough consecutive slots" message |
| Reserva.AlIntentarCargar | src/app/cliente/reservar-cita/reservar-cita.component.ts:283-294 | the list is emptied; with a complete form both messages are cleared by the load, otherwise they stay |
| Reserva.AlCargar | src/app/cliente/reservar-cita/reservar-cita.component.ts:296-366 | the success message stays; a failed request keeps the list and sets the load error; without a service the list is empty with the invalid-service error; otherwise the list's records are the response sorted by start time, with the "no slots" error iff none was received |
| Reserva.RecalcularSoloInicios | src/app/cliente/reservar-cita/reservar-cita.component.ts:418-449 | recalculation changes no slot's record or state |
| Reserva.InicioNoSolapaSeleccion | src/app/cliente/reservar-cita/reservar-cita.component.ts:427-448 | after recalculation a start exists only with a service, and its block fits in the list and holds no selected or own slot |
| Reserva.RecalcularCoherente | src/app/cliente/reservar-cita/reservar-cita.component.ts:418-449 | recalculation restores the start half of the invariant |
| Reserva.RevertirCoherente | src/app/cliente/reservar-cita/reservar-cita.component.ts:148-157 | reverting the selection keeps the invariant and leaves nothing selected |
| Reserva.RevertirTodos | src/app/cliente/reservar-cita/reservar-cita.component.ts:148-157 | the same slots in the same places, with nothing left selected |
| Reserva.CancelarSel | src/app/cliente/reservar-cita/reservar-cita.component.ts:143-163 | without a service nothing changes; otherwise nothing is selected, both messages are cleared and every slot keeps its record and place |
| Reserva.CancelarDeseleccionaTodo | src/app/cliente/reservar-cita/reservar-cita.component.ts:143-163 | `cancelarSeleccion` leaves no selected slot; each slot keeps its record and takes its reverted state; both messages are cleared |
| Reserva.CancelarCoherente | src/app/cliente/reservar-cita/reservar-cita.component.ts:143-163 | `cancelarSeleccion` keeps the invariant, with or without a service |
| Reserva.IndiceDe | src/app/cliente/reservar-cita/reservar-cita.component.ts:376 | `findIndex`: -1 iff no slot has the id, else the first position holding it |
| Reserva.LibresDesde | src/app/cliente/reservar-cita/reservar-cita.component.ts:395-406 | the selection loop marks a prefix of free slots, at most `n`, and stops only at the list's end or at a slot that is not free |
| Reserva.Click | src/app/cliente/reservar-cita/reservar-cita.component.ts:368-416 | without a service only the "select a service first" error is set; every click keeps each slot's record and place |
| Reserva.MarcarBloque | src/app/cliente/reservar-cita/reservar-cita.component.ts:395-400 | a complete block marks exactly the `n` slots from the start and leaves every other slot as it was |
| Reserva.ClickEnInicioSeleccionaBloque | src/app/cliente/reservar-cita/reservar-cita.component.ts:384-407 | clicking a start selects exactly the `n` slots from it; other slots keep their state except that an earlier selection is reverted; the error is cleared |
| Reserva.ClickEnSeleccionadoDeselecciona | src/app/cliente/reservar-cita/reservar-cita.component.ts:379-383 | clicking a selected slot leaves nothing selected, each slot reverted, both messages cleared |
| Reserva.ClickRechazadoNoCambiaEstados | src/app/cliente/reservar-cita/reservar-cita.component.ts:408-415 | clicking a taken, blocked or non-start slot changes no slot's state or record, keeps the success message and sets the error: "select a service first" without a service, "already booked" for a taken slot, "not available" otherwise |
| Reserva.ClickCoherente | src/app/cliente/reservar-cita/reservar-cita.component.ts:368-416 | every click keeps the invariant |
| Reserva.ClickEnInicioCoherente | src/app/cliente/reservar-cita/reservar-cita.component.ts:384-407 | a click on a start keeps the invariant, whether the whole block is marked or it is cut short and deselected |
| Reserva.BloqueIncompletoCoherente | src/app/cliente/reservar-cita/reservar-cita.component.ts:401-406 | a block cut short by a taken slot is marked and deselected again, and the invariant holds after |
| Reserva.MarcarLibres | src/app/cliente/reservar-cita/reservar-cita.component.ts:395-400 | marking free slots keeps every `disponible` or selected slot free |
| Reserva.Posiciones | src/app/cliente/reservar-cita/reservar-cita.component.ts:451-453 | the positions of the selected slots: each one selected, strictly increasing, and every selected position listed |
| Reserva.Seleccionados | src/app/cliente/reservar-cita/reservar-cita.component.ts:451-453 | `filter`: the i-th result is the slot at the i-th selected position, so the selected slots in display order and nothing else |
| Reserva.SeleccionadosMiembros | src/app/cliente/reservar-cita/reservar-cita.component.ts:451-453 | a slot is in the result iff it is in the list and selected |
| Reserva.SeleccionadosVacio | src/app/cliente/reservar-cita/reservar-cita.component.ts:451-453 | the result is non-empty iff something is selected |
| Reserva.PrimerSeleccionado | src/app/cliente/reservar-cita/reservar-cita.component.ts:506-513 | the first selected slot in display order is the head of the result, and its id is the first id sent |
| Reserva.IdsSeleccionados | src/app/cliente/reservar-cita/reservar-cita.component.ts:506 | the i-th id is the id of the slot at the i-th selected position, so the selected ids in display order |
| Reserva.DecidirReserva | src/app/cliente/reservar-cita/reservar-cita.component.ts:471-516 | a request is sent iff the user is a CLIENTE, a selection with a truthy first id exists, no selected slot is closed or carries a client, the service has an id, and employee and date are set; the request carries the selected ids in order, first id as `primerTramoId` and `tramoId`; a reload is asked for exactly on a stale selection |
| Reserva.AlConfirmar | src/app/cliente/reservar-cita/reservar-cita.component.ts:467-523 | the success message is cleared; a request that is sent is exactly the decided one and clears the error; a refused one sends nothing and either keeps the list with the refusal's message or reloads |
| Reserva.MensajeFallo | src/app/cliente/reservar-cita/reservar-cita.component.ts:539 | the backend's message, else the HTTP error's, else the default; never empty |
| Reserva.RecargaBorraMensaje | src/app/cliente/reservar-cita/reservar-cita.component.ts:537-541 | with a complete form, a failed booking or a stale selection ends with an empty list and no message |
| Reserva.AlFallarReserva | src/app/cliente/reservar-cita/reservar-cita.component.ts:536-541 | the list is emptied; with an incomplete form the failure message stays shown and the success message is kept |
| Reserva.ReservaMarcaSeleccion | src/app/cliente/reservar-cita/reservar-cita.component.ts:525-535 | a successful booking turns exactly the selected slots into `reservadoPropio`, no longer starts, and changes no other state |
| Reserva.ReservaCoherente | src/app/cliente/reservar-cita/reservar-cita.component.ts:525-535 | a successful booking keeps the invariant |
| Reserva.AlReservar | src/app/cliente/reservar-cita/reservar-cita.component.ts:525-535 | the success message is set and the error kept; every slot keeps its record and place |
| Reserva.MarcarPropios | src/app/cliente/reservar-cita/reservar-cita.component.ts:527-534 | every slot keeps its record; a slot that changes becomes `reservadoPropio`, stops being a start, and its id is one of the booked ids |
| ReservarCita.BuscarServicio | src/app/cliente/reservar-cita/reservar-cita.component.ts:458 | `find`: none iff no service has the id, else the first with it |
| ReservarCita.ReservarCitaComponent.constructor | src/app/cliente/reservar-cita/reservar-cita.component.ts:32-42 | the screen starts with an empty list and no message, and satisfies the invariant |
| ReservarCita.ReservarCitaComponent.ServicioSeleccionado | src/app/cliente/reservar-cita/reservar-cita.component.ts:455-459 | none for a falsy id or an id not offered; else an offered service with that id |
| ReservarCita.ReservarCitaComponent.HayTramosSeleccionables | src/app/cliente/reservar-cita/reservar-cita.component.ts:461-465 | true only with a service; on a coherent screen the start found heads a block of `numTramos` free slots |
| ReservarCita.ReservarCitaComponent.IntentarCargarTramos | src/app/cliente/reservar-cita/reservar-cita.component.ts:283-300 | a fetch is issued iff all four form fields are set; the list is emptied, and with a fetch both messages are cleared |
| ReservarCita.ReservarCitaComponent.AlRecibirTramos | src/app/cliente/reservar-cita/reservar-cita.component.ts:306-365 | the new state is the load transition `AlCargar`; the invariant is kept |
| ReservarCita.ReservarCitaComponent.BloqueLibre | src/app/cliente/reservar-cita/reservar-cita.component.ts:328-343 | the inner loop answers whether the `n` slots from the index exist and are all free |
| ReservarCita.ReservarCitaComponent.CancelarSeleccion | src/app/cliente/reservar-cita/reservar-cita.component.ts:143-163 | performs `CancelarSel` in place on the same array and keeps the invariant |
| ReservarCita.ReservarCitaComponent.RevertirSeleccion | src/app/cliente/reservar-cita/reservar-cita.component.ts:148-157 | reverts every selected slot in place and reports whether any was selected |
| ReservarCita.ReservarCitaComponent.SeleccionarBloque | src/app/cliente/reservar-cita/reservar-cita.component.ts:395-406 | marks the free prefix in place and reports whether all `n` slots were marked |
| ReservarCita.ReservarCitaComponent.RecalcularEsInicioPosible | src/app/cliente/reservar-cita/reservar-cita.component.ts:418-449 | performs `Recalcular` in place; messages unchanged |
| ReservarCita.ReservarCitaComponent.BloqueDisponible | src/app/cliente/reservar-cita/reservar-cita.component.ts:430-442 | the inner loop answers the recalculation start test |
| ReservarCita.ReservarCitaComponent.BuscarIndice | src/app/cliente/reservar-cita/reservar-cita.component.ts:376 | the loop returns the `findIndex` result |
| ReservarCita.ReservarCitaComponent.SeleccionarTramo | src/app/cliente/reservar-cita/reservar-cita.component.ts:368-416 | performs the `Click` transition in place and keeps the invariant |
| ReservarCita.ReservarCitaComponent.ConfirmarReserva | src/app/cliente/reservar-cita/reservar-cita.component.ts:467-519 | returns the request exactly when `DecidirReserva` sends one; messages and list as `AlConfirmar` says |
| ReservarCita.ReservarCitaComponent.AlReservarConExito | src/app/cliente/reservar-cita/reservar-cita.component.ts:525-536 | performs `AlReservar` in place and keeps the invariant |
| ReservarCita.ReservarCitaComponent.MarcarReservados | src/app/cliente/reservar-cita/reservar-cita.component.ts:527-534 | marks in place every slot whose truthy id is listed |
| ReservarCita.ReservarCitaComponent.AlFallarReserva | src/app/cliente/reservar-cita/reservar-cita.component.ts:537-541 | shows the failure message, then reloads as `intentarCargarTramos` does |
| CancelarReserva.Filtrar | src/app/cliente/cancelar-reserva-cliente/cancelar-reserva-cliente.component.ts:64-68 | keeps exactly the closed slots of this client with a truthy service id, each as often as in the input |
| CancelarReserva.FiltrarConcatena | src/app/cliente/cancelar-reserva-cliente/cancelar-reserva-cliente.component.ts:64-68 | the filter keeps the input order: filtering a concatenation concatenates the filtered parts |
| CancelarReserva.Anadir | src/app/cliente/cancelar-reserva-cliente/cancelar-reserva-cliente.component.ts:87-96 | the slot lands in the group of its key; the counter moves on exactly for a slot without `reservaId` |
| CancelarReserva.Agrupar | src/app/cliente/cancelar-reserva-cliente/cancelar-reserva-cliente.component.ts:84-96 | there are no more groups than slots |
| CancelarReserva.AnadirUnitarios | src/app/cliente/cancelar-reserva-cliente/cancelar-reserva-cliente.component.ts:88-92 | the counter makes every synthetic key new, so its group keeps one slot |
| CancelarReserva.AnadirAplanar | src/app/cliente/cancelar-reserva-cliente/cancelar-reserva-cliente.component.ts:94-95 | each step adds the slot exactly once to the groups |
| CancelarReserva.AgruparParticion | src/app/cliente/cancelar-reserva-cliente/cancelar-reserva-cliente.component.ts:84-96 | the groups partition the input; keys are listed once; groups are non-empty and hold only slots of their key; each slot with a `reservaId` is in that id's group |
| CancelarReserva.SinReservaSolitario | src/app/cliente/cancelar-reserva-cliente/cancelar-reserva-cliente.component.ts:88-92 | a synthetic key's group is one slot without `reservaId` |
| CancelarReserva.MismaReservaMismoGrupo | src/app/cliente/cancelar-reserva-cliente/cancelar-reserva-cliente.component.ts:88-95 | slots sharing a `reservaId` share a group that holds nothing else |
| CancelarReserva.AgruparResumible | src/app/cliente/cancelar-reserva-cliente/cancelar-reserva-cliente.component.ts:94-101 | every listed key has a non-empty group; a non-empty input has a key |
| CancelarReserva.Resumir | src/app/cliente/cancelar-reserva-cliente/cancelar-reserva-cliente.component.ts:100-114 | `citaId` is the key; labels fall back to fixed texts and are never empty |
| CancelarReserva.Extremos | src/app/cliente/cancelar-reserva-cliente/cancelar-reserva-cliente.component.ts:101-103 | after the sort by start time, the first and last slots belong to the group and bound every start in it |
| CancelarReserva.ResumirExtremos | src/app/cliente/cancelar-reserva-cliente/cancelar-reserva-cliente.component.ts:100-114 | the summary's id, date, start and labels come from a member with the earliest start; its end comes from a member with the latest start |
| CancelarReserva.Resumenes | src/app/cliente/cancelar-reserva-cliente/cancelar-reserva-cliente.component.ts:98-115 | one summary per listed key, in key order |
| CancelarReserva.OrdenarResumenesPermuta | src/app/cliente/cancelar-reserva-cliente/cancelar-reserva-cliente.component.ts:117 | the final sort is a permutation (same multiset of summaries) ordered by date then start |
| CancelarReserva.OrdenarResumenesEstable | src/app/cliente/cancelar-reserva-cliente/cancelar-reserva-cliente.component.ts:117 | summaries with the same date and start time keep the order of their groups |
| CancelarReserva.OrdenarResumenesMiembros | src/app/cliente/cancelar-reserva-cliente/cancelar-reserva-cliente.component.ts:117 | after the sort every summary is one of the input's and every input summary is present, in date-then-start order |
| CancelarReserva.ReordenarDeSuGrupo | src/app/cliente/cancelar-reserva-cliente/cancelar-reserva-cliente.component.ts:98-117 | any list drawn from the summaries holds only summaries of their own group |
| CancelarReserva.ReordenarCubre | src/app/cliente/cancelar-reserva-cliente/cancelar-reserva-cliente.component.ts:98-117 | a list drawn from the summaries that contains them all has a summary for exactly the listed keys |
| CancelarReserva.OrdenarResumenes | src/app/cliente/cancelar-reserva-cliente/cancelar-reserva-cliente.component.ts:98-117 | after sorting, each key has a summary, and each summary is that of its own group |
| CancelarReserva.Procesar | src/app/cliente/cancelar-reserva-cliente/cancelar-reserva-cliente.component.ts:83-118 | one summary per group, each the summary of its group, sorted by date then start; empty iff the input is |
| CancelarReserva.SinReservasSiiNadaFiltrado | src/app/cliente/cancelar-reserva-cliente/cancelar-reserva-cliente.component.ts:64-74 | the list is empty iff no slot passes the filter |
| CancelarReserva.MensajeErrorCancelar | src/app/cliente/cancelar-reserva-cliente/cancelar-reserva-cliente.component.ts:136 | the fixed prefix followed by the backend's message, else the HTTP error's, else the text `undefined` that string concatenation produces |
| CancelarReserva.CancelarReservaClienteComponent.constructor | src/app/cliente/cancelar-reserva-cliente/cancelar-reserva-cliente.component.ts:31-35 | the screen starts empty with no message |
| CancelarReserva.CancelarReservaClienteComponent.Iniciar | src/app/cliente/cancelar-reserva-cliente/cancelar-reserva-cliente.component.ts:44-51 | loads for a user with a truthy id, else shows the "no client" error |
| CancelarReserva.CancelarReservaClienteComponent.CargarReservasCliente | src/app/cliente/cancelar-reserva-cliente/cancelar-reserva-cliente.component.ts:53-57 | a request is made iff the id is truthy, and then both messages are cleared |
| CancelarReserva.CancelarReservaClienteComponent.AlRecibirReservas | src/app/cliente/cancelar-reserva-cliente/cancelar-reserva-cliente.component.ts:63-79 | the list becomes the processed filtered slots, with the "no bookings" error iff it is empty; a failed request sets the load error |
| CancelarReserva.CancelarReservaClienteComponent.ProcesarTramosParaMostrar | src/app/cliente/cancelar-reserva-cliente/cancelar-reserva-cliente.component.ts:83-118 | the loops compute `Procesar` |
| CancelarReserva.CancelarReservaClienteComponent.AgruparTramos | src/app/cliente/cancelar-reserva-cliente/cancelar-reserva-cliente.component.ts:84-96 | the grouping loop computes the fold `Agrupar`: the same key order, groups and counter |
| CancelarReserva.CancelarReservaClienteComponent.ResumirGrupos | src/app/cliente/cancelar-reserva-cliente/cancelar-reserva-cliente.component.ts:98-115 | the summarising loop computes `Resumenes`: one summary per key, in key order |
| CancelarReserva.CancelarReservaClienteComponent.CancelarReserva | src/app/cliente/cancelar-reserva-cliente/cancelar-reserva-cliente.component.ts:120-129 | sends a request iff confirmed, carrying only the first slot's id, and clears both messages |
| CancelarReserva.CancelarReservaClienteComponent.AlCancelarConExito | src/app/cliente/cancelar-reserva-cliente/cancelar-reserva-cliente.component.ts:131-134 | reloads iff the user's id is truthy, which clears the success message; otherwise the success message stays |
| CancelarReserva.CancelarReservaClienteComponent.AlFallarCancelacion | src/app/cliente/cancelar-reserva-cliente/cancelar-reserva-cliente.component.ts:135-137 | shows the cancellation error message |

## Left out

- HTTP calls, rxjs streams, `takeUntil`/`finalize`, the loading flags and console logging. Each backend call is replaced by its outcome, passed as a parameter.
- The form-change handlers of the booking screen (`onPeluqueriaChanges` and the other `valueChanges` subscriptions), `cargarPeluquerias`, `ngOnInit` and `ngOnDestroy`. They are event wiring; the form's four values are constants of the component object.
- `getColor`, `getTramoTitle`, the registration and creation forms, `gestion-calendario`, the dashboards, routing modules and the HTTP services. They are presentation or plumbing.
- `registerCliente` and `registerEmpleado` in the auth service: plain POST requests.
- The `typeof localStorage !== 'undefined'` checks: storage is always present.
- Auth.UserFromStorage: JSON parsing is replaced by the `Stored` datatype, which records only what the application can observe. An entry either parses to a truthy value (`UserJson`), parses to a falsy one (`JsonFalsy`), or does not parse (`Text`). A truthy value is read field by field, and a missing field reads as `0` or the empty string. The application only tests those fields for truthiness or compares them with role names, so the two agree. One difference remains unmodelled: a booking request made by a restored user without an `id` carries `clienteId` 0 where the source sends `undefined`.
- `confirm()`: its answer is the `confirmado` parameter.
- The texts of login errors built from response bodies: a failed login is `LoginFallido(status)`.
- CancelarReserva.Clave: the group key is a datatype, so a real `reservaId` never equals a synthetic key. In the source, a `reservaId` that is literally `"S/<fecha>_<hora>_<n>"` would merge with a synthetic group.
- `reservaId` is modelled as a string; a numeric `reservaId` is not considered.
- Prices are integers: a missing price gives 0, and non-numeric prices (`NaN`) are not modelled.
- Reserva.ClickEnInicioSeleccionaBloque: assumes slot ids are unique. With duplicate ids, `findIndex` starts the block at the first slot carrying the clicked id. `Reserva.Click` models this, but no lemma describes that case.
- Reserva.ReservaMarcaSeleccion: assumes unique ids and an id on every selected slot. Otherwise the source also marks unselected slots that share a selected id; `Reserva.AlReservar` models this, but no lemma describes it.
- ReservarCita.ReservarCitaComponent.SeleccionarTramo: takes the clicked slot's position, not the slot object. The template only passes slots that are in the list.
