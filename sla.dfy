/** The ticket records of tickets/models.py and the SLA classifier built on them
    (`Ticket.sla_deadline`, `Ticket.sla_status`, `Ticket.sla_cumplido_bool`).
    Times are whole seconds; the clock reading `timezone.now()` is the parameter `now`. */
module Sla {
  import opened Text

  const SecondsPerHour: int := 3600

  datatype Prioridad = Prioridad(id: nat, nombre: string, nivel: nat, slaHoras: Option<nat>)

  datatype EstadoTicket = EstadoTicket(id: nat, nombre: string, descripcion: string, esFinal: bool)

  /** A ticket row. `prioridad`, `categoria`, `subcategoria` and `cierre` are nullable;
      `estado` and `area` are required foreign keys. */
  datatype Ticket = Ticket(
    id: nat, titulo: string, descripcion: string, solicitante: nat,
    categoria: Option<nat>, subcategoria: Option<nat>, prioridad: Option<nat>,
    area: nat, estado: nat, archivo: Option<string>,
    creacion: int, actualizacion: int, cierre: Option<int>,
    slaHorasObjetivo: Option<nat>)

  /** AsignacionTicket: which technician profile works on a ticket. */
  datatype Asignacion = Asignacion(id: nat, ticket: nat, tecnico: nat, fecha: int, activo: bool)

  /** HistorialTicket: one audit entry; the status references are nullable. */
  datatype Historial = Historial(id: nat, ticket: nat, usuario: Option<nat>,
                                 anterior: Option<nat>, nuevo: Option<nat>,
                                 comentario: string, fecha: int)

  datatype Comentario = Comentario(id: nat, ticket: nat, usuario: nat, texto: string,
                                   archivo: Option<string>, fecha: int)

  /** CalificacionTicket; the store keys ratings by ticket, which is the OneToOneField. */
  datatype Calificacion = Calificacion(ticket: nat, usuario: nat, puntuacion: int,
                                       resuelto: bool, comentario: string, fecha: int)

  datatype SlaStatus = SinSla | EnCurso | Advertencia | Vencido | Cumplido | VencidoCerr

  /** The `sla_horas` of the ticket's priority, or None when the ticket has none. */
  function PrioritySlaHoras(p: Option<Prioridad>): Option<nat> {
    if p.Some? then p.value.slaHoras else None
  }

  /** `sla_deadline`: creation time plus the priority's hours, when those hours are set
      and nonzero (`if self.prioridad and self.prioridad.sla_horas`). */
  function Deadline(creacion: int, slaHoras: Option<nat>): (d: Option<int>)
    ensures d.Some? <==> slaHoras.Some? && slaHoras.value > 0
    ensures d.Some? ==> d.value == creacion + slaHoras.value * SecondsPerHour && d.value > creacion
  {
    if slaHoras.Some? && slaHoras.value != 0 then Some(creacion + slaHoras.value * SecondsPerHour)
    else None
  }

  /** `restantes/total <= 0.25` with `total > 0`, stated over integers. */
  predicate NearDeadline(remaining: int, total: int) {
    total > 0 && 4 * remaining <= total
  }

  /** `sla_status`, evaluated in the source's order. */
  function Status(creacion: int, slaHoras: Option<nat>, esFinal: bool, cierre: Option<int>, now: int): SlaStatus {
    var deadline := Deadline(creacion, slaHoras);
    if deadline.None? then SinSla
    else if esFinal && cierre.Some? then
      (if cierre.value <= deadline.value then Cumplido else VencidoCerr)
    else if now > deadline.value then Vencido
    else if NearDeadline(deadline.value - now, deadline.value - creacion) then Advertencia
    else EnCurso
  }

  /** `sla_cumplido_bool`: True, False or None. */
  function CumplidoBool(s: SlaStatus): (r: Option<bool>)
    ensures r == Some(true) <==> s == Cumplido
    ensures r == Some(false) <==> s == Vencido || s == VencidoCerr
    ensures r.None? <==> s == SinSla || s == EnCurso || s == Advertencia
  {
    match s
    case Cumplido => Some(true)
    case Vencido | VencidoCerr => Some(false)
    case SinSla | EnCurso | Advertencia => None
  }

  /** The classifier for a ticket row, given its priority and status records. */
  function TicketStatus(t: Ticket, p: Option<Prioridad>, e: EstadoTicket, now: int): SlaStatus {
    Status(t.creacion, PrioritySlaHoras(p), e.esFinal, t.cierre, now)
  }

  /** No SLA exactly when there is no deadline; otherwise the status is one of the five
      others, each under exactly the condition the source tests for it. */
  lemma StatusCharacterization(creacion: int, h: Option<nat>, esFinal: bool, cierre: Option<int>, now: int)
    ensures var s := Status(creacion, h, esFinal, cierre, now);
      var d := Deadline(creacion, h);
      && (s == SinSla <==> d.None?)
      && (s == Cumplido <==> d.Some? && esFinal && cierre.Some? && cierre.value <= d.value)
      && (s == VencidoCerr <==> d.Some? && esFinal && cierre.Some? && cierre.value > d.value)
      && (s == Vencido <==> d.Some? && !(esFinal && cierre.Some?) && now > d.value)
      && (s == Advertencia <==> d.Some? && !(esFinal && cierre.Some?) && now <= d.value
                                && 4 * (d.value - now) <= d.value - creacion)
      && (s == EnCurso <==> d.Some? && !(esFinal && cierre.Some?) && now <= d.value
                            && 4 * (d.value - now) > d.value - creacion)
  {
  }

  /** For a ticket with an SLA the 25 % warning threshold is the instant
      `creacion + 3/4 * sla`: an open ticket warns from there until the deadline. */
  lemma WarningWindow(creacion: int, h: nat, esFinal: bool, cierre: Option<int>, now: int)
    requires h > 0 && !(esFinal && cierre.Some?)
    ensures Status(creacion, Some(h), esFinal, cierre, now) == Advertencia <==>
              4 * creacion + 3 * h * SecondsPerHour <= 4 * now <= 4 * (creacion + h * SecondsPerHour)
  {
  }

  /** Rank of a status in the life of an open ticket. */
  function OpenRank(s: SlaStatus): nat {
    match s
    case EnCurso => 0
    case Advertencia => 1
    case Vencido => 2
    case _ => 0
  }

  /** As time passes an open ticket only moves forward: EN_CURSO, then ADVERTENCIA,
      then VENCIDO, never back. A closed ticket's status does not depend on the clock. */
  lemma StatusMonotoneInTime(creacion: int, h: Option<nat>, esFinal: bool, cierre: Option<int>, now1: int, now2: int)
    requires now1 <= now2
    ensures esFinal && cierre.Some? ==>
              Status(creacion, h, esFinal, cierre, now1) == Status(creacion, h, esFinal, cierre, now2)
    ensures OpenRank(Status(creacion, h, esFinal, cierre, now1)) <= OpenRank(Status(creacion, h, esFinal, cierre, now2))
  {
    var d := Deadline(creacion, h);
    if d.Some? && !(esFinal && cierre.Some?) && now2 <= d.value {
      assert 4 * (d.value - now2) <= 4 * (d.value - now1);
    }
  }

  /** A final status with no close time is classified as if the ticket were open. */
  lemma FinalWithoutCloseIsOpen(creacion: int, h: Option<nat>, cierre: Option<int>, now: int)
    requires cierre.None?
    ensures Status(creacion, h, true, cierre, now) == Status(creacion, h, false, cierre, now)
  {
  }

  /** The compliance projection of a closed ticket with an SLA is always defined and says
      whether it closed by the deadline. */
  lemma ClosedComplianceDefined(creacion: int, h: nat, cierre: int, now: int)
    requires h > 0
    ensures CumplidoBool(Status(creacion, Some(h), true, Some(cierre), now)) ==
              Some(cierre <= creacion + h * SecondsPerHour)
  {
  }

  /** The worked examples: 24 h of SLA, checked at 10 h, 23 h and 25 h after creation,
      and closed at 20 h and 30 h. */
  lemma Examples(t0: int, now: int)
    ensures Status(t0, Some(24), false, None, t0 + 10 * 3600) == EnCurso
    ensures Status(t0, Some(24), false, None, t0 + 23 * 3600) == Advertencia
    ensures Status(t0, Some(24), false, None, t0 + 25 * 3600) == Vencido
    ensures Status(t0, Some(24), true, Some(t0 + 20 * 3600), now) == Cumplido
    ensures Status(t0, Some(24), true, Some(t0 + 30 * 3600), now) == VencidoCerr
    ensures Status(t0, Some(0), false, None, now) == SinSla
  {
  }

  // ----------------------------------------------------------------------------------
  // The close-stamp rule both edit handlers apply before `ticket.save()`.
  // ----------------------------------------------------------------------------------

  /** `fecha_cierre` after the rule: stamped with `now` when the (new) status is final and
      no stamp exists, kept when one exists, cleared when the status is not final. */
  function CloseStamp(esFinal: bool, cierre: Option<int>, now: int): (c: Option<int>)
    ensures c.Some? <==> esFinal
    ensures esFinal && cierre.Some? ==> c == cierre
    ensures esFinal && cierre.None? ==> c == Some(now)
  {
    if esFinal then (if cierre.None? then Some(now) else cierre) else None
  }

  /** Applying the rule twice is applying it once, and closing then reopening clears the
      stamp, while reopening then closing again stamps the new time. */
  lemma CloseStampRoundTrips(cierre: Option<int>, t1: int, t2: int)
    ensures CloseStamp(true, CloseStamp(true, cierre, t1), t2) == CloseStamp(true, cierre, t1)
    ensures CloseStamp(false, CloseStamp(true, cierre, t1), t2) == None
    ensures CloseStamp(true, CloseStamp(false, cierre, t1), t2) == Some(t2)
  {
  }

  /** A ticket stamped at or after its creation keeps `creacion <= cierre`. */
  lemma CloseStampAfterCreation(creacion: int, esFinal: bool, cierre: Option<int>, now: int)
    requires cierre.Some? ==> creacion <= cierre.value
    requires creacion <= now
    ensures var c := CloseStamp(esFinal, cierre, now); c.Some? ==> creacion <= c.value
  {
  }
}
