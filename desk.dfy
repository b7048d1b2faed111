/** The ticket desk of accounts/views.py: the POST branches of the admin, technician and
    requester ticket views, the password-recovery fan-out, the user edit form, and the
    SLA-compliance count and burndown series of the reports dashboard. */
module Desk {
  import opened Text
  import opened Accounts
  import opened Roles
  import opened Sla
  import opened Notifications

  // ----------------------------------------------------------------------------------
  // Form inputs and outcomes
  // ----------------------------------------------------------------------------------

  /** The fields of the admin ticket form. A missing or empty id field is None; an absent
      `comentario` is the empty string. `comentarioTexto` is None when the key is absent. */
  datatype AdminForm = AdminForm(comentarioTexto: Option<string>, archivo: Option<string>,
                                 estado: Option<nat>, categoria: Option<nat>, prioridad: Option<nat>,
                                 area: Option<nat>, tecnico: Option<nat>, comentario: string)

  datatype TechForm = TechForm(comentarioTexto: Option<string>, archivo: Option<string>,
                               estado: Option<nat>, comentario: string)

  /** The requester's detail form: a comment, or a CSAT rating (`puntuacion` None when the
      key is absent; `resuelto` is the raw field). */
  datatype RequesterForm = RequesterForm(comentarioTexto: Option<string>, archivo: Option<string>,
                                         puntuacion: Option<int>, resuelto: Option<string>,
                                         comentarioCsat: string)

  datatype Outcome =
    | Forbidden              // HttpResponseForbidden: the role check failed
    | NotFound               // a 404 from get_object_or_404
    | CommentAdded
    | InvalidReference       // an id naming no row: the save raises, nothing is written
    | TechnicianNotFound     // the admin form's technician is unknown: 404 after the ticket save
    | NotAssigned            // the technician is not the ticket's active assignee
    | Updated(slaFlash: Option<bool>)
    | StatusChanged
    | MissingFields          // creation without title, description or area
    | Created(ticket: nat)
    | Rated(created: bool)
    | RatingRejected         // a negative score: the positive-integer column refuses it
    | NoAction               // a POST with neither form: the page is rendered again

  // ----------------------------------------------------------------------------------
  // Message texts
  // ----------------------------------------------------------------------------------

  function CommentTitle(id: nat): string { "Nuevo comentario en Ticket #" + NatToString(id) }
  const AdminCommentMessage: string := "El administrador agregó un comentario."
  function AssignTitle(id: nat): string { "Ticket #" + NatToString(id) + " asignado" }
  function AssignMessage(titulo: string): string { "Se te asignó el ticket: " + titulo }
  function UpdateTitle(id: nat): string { "Ticket #" + NatToString(id) + " actualizado" }
  function UpdateMessage(estado: string): string { "El estado actual es: " + estado }
  function CreateTitle(id: nat): string { "Nuevo ticket #" + NatToString(id) }
  function CreateMessage(email: string, titulo: string): string { email + " creó el ticket: " + titulo }
  const RecoveryTitle: string := "\U{1F510} Solicitud de recuperación de contraseña"
  function RecoveryMessage(u: Usuario): string { DisplayName(u) + " solicita resetear su contraseña." }
  const AdminDefaultComment: string := "Actualización realizada por el administrador."
  const TechDefaultComment: string := "Actualización realizada por el técnico."
  const CreationComment: string := "Ticket creado por el solicitante."
  const Abierto: string := "Abierto"
  const AbiertoDescripcion: string := "Ticket creado por el usuario"

  /** `user.get_full_name() or user.email`: the fallback is already inside get_full_name,
      so the name shown is get_full_name itself. */
  function DisplayName(u: Usuario): (r: string)
    ensures r == GetFullName(u)
  {
    var n := GetFullName(u);
    if n != [] then n else u.email
  }

  /** A portal notification as `Notificacion.objects.create` stores it. */
  function Note(id: nat, ticket: Option<nat>, destino: nat, tipo: string, titulo: string,
                mensaje: string, now: int): Notificacion {
    Notificacion(id, ticket, destino, tipo, titulo, mensaje, now, false, Portal)
  }

  /** The technician's comment notice. */
  function TechCommentMessage(u: Usuario): string { DisplayName(u) + " agregó un comentario." }

  /** The requester's comment notice: the first 100 characters of the text, then "...". */
  function RequesterCommentMessage(u: Usuario, texto: string): string {
    DisplayName(u) + " agregó un comentario: " + Take(texto, 100) + "..."
  }

  // ----------------------------------------------------------------------------------
  // Status catalog
  // ----------------------------------------------------------------------------------

  predicate UniqueEstados(es: seq<EstadoTicket>) {
    forall i, j :: 0 <= i < j < |es| ==> es[i].id != es[j].id && es[i].nombre != es[j].nombre
  }

  /** `EstadoTicket.objects.get(id=id)`. */
  function FindEstado(es: seq<EstadoTicket>, id: nat): (r: Option<EstadoTicket>)
    ensures r.Some? ==> r.value in es && r.value.id == id
    ensures r.None? ==> forall k :: 0 <= k < |es| ==> es[k].id != id
  {
    if es == [] then None
    else if es[|es| - 1].id == id then Some(es[|es| - 1])
    else
      var r := FindEstado(es[..|es| - 1], id);
      if r.Some? then Some(r.value) else None
  }

  /** Statuses are only ever added: a status found in the catalog is still found after a
      row is appended, and a row of the catalog is always found by its id. */
  lemma FindEstadoAppend(es: seq<EstadoTicket>, e: EstadoTicket, id: nat)
    ensures FindEstado(es, id).Some? ==> FindEstado(es + [e], id).Some?
    ensures e in es ==> FindEstado(es, e.id).Some?
  {
    var es1 := es + [e];
    assert es1[..|es1| - 1] == es;
    if e in es {
      var k :| 0 <= k < |es| && es[k] == e;
    }
  }

  /** `EstadoTicket.objects.filter(nombre_estado=name)`, as an index. */
  function FindEstadoByName(es: seq<EstadoTicket>, name: string): (r: Option<nat>)
    ensures r.Some? ==> r.value < |es| && es[r.value].nombre == name
    ensures r.None? ==> forall k :: 0 <= k < |es| ==> es[k].nombre != name
  {
    if es == [] then None
    else if es[|es| - 1].nombre == name then Some(|es| - 1)
    else FindEstadoByName(es[..|es| - 1], name)
  }

  /** `EstadoTicket.objects.get_or_create(nombre_estado="Abierto", defaults=...)`: the
      catalog afterwards and the row found or made. */
  function GetOrCreateAbierto(es: seq<EstadoTicket>, freshId: nat): (r: (seq<EstadoTicket>, EstadoTicket))
    ensures r.1 in r.0 && r.1.nombre == Abierto
    ensures FindEstadoByName(es, Abierto).Some? ==> r.0 == es
    ensures FindEstadoByName(es, Abierto).None? ==>
              r.1 == EstadoTicket(freshId, Abierto, AbiertoDescripcion, false) && r.0 == es + [r.1]
  {
    match FindEstadoByName(es, Abierto)
    case Some(k) => (es, es[k])
    case None =>
      var e := EstadoTicket(freshId, Abierto, AbiertoDescripcion, false);
      (es + [e], e)
  }

  /** Get-or-create of "Abierto" keeps the catalog's unique ids and names, finds the one
      row named "Abierto", and a second call changes nothing. */
  lemma GetOrCreateAbiertoIdempotent(es: seq<EstadoTicket>, freshId: nat, laterId: nat)
    requires UniqueEstados(es) && forall k :: 0 <= k < |es| ==> es[k].id < freshId
    ensures var (es1, e1) := GetOrCreateAbierto(es, freshId);
      && UniqueEstados(es1)
      && GetOrCreateAbierto(es1, laterId) == (es1, e1)
  {
    var (es1, e1) := GetOrCreateAbierto(es, freshId);
    var k := FindEstadoByName(es1, Abierto).value;
    var m :| 0 <= m < |es1| && es1[m] == e1;
    assert k == m;
  }

  // ----------------------------------------------------------------------------------
  // Assignments
  // ----------------------------------------------------------------------------------

  /** At most one assignment row per ticket: every write goes through
      `update_or_create(ticket=...)`. */
  predicate OneAssignmentPerTicket(asg: seq<Asignacion>) {
    forall i, j :: 0 <= i < j < |asg| ==> asg[i].ticket != asg[j].ticket
  }

  /** The assignment row of `ticket`, the one `update_or_create(ticket=...)` finds. */
  function FindAssignment(asg: seq<Asignacion>, ticket: nat): (r: Option<nat>)
    ensures r.Some? ==> r.value < |asg| && asg[r.value].ticket == ticket
    ensures r.None? ==> forall k :: 0 <= k < |asg| ==> asg[k].ticket != ticket
  {
    if asg == [] then None
    else if asg[|asg| - 1].ticket == ticket then Some(|asg| - 1)
    else FindAssignment(asg[..|asg| - 1], ticket)
  }

  /** `AsignacionTicket.objects.filter(ticket=..., activo=True).first()`: the active row of
      lowest id. */
  function FirstActive(asg: seq<Asignacion>, ticket: nat): (r: Option<nat>)
    ensures r.Some? ==> r.value < |asg| && asg[r.value].ticket == ticket && asg[r.value].activo
    ensures r.Some? ==> forall k :: 0 <= k < r.value ==> !(asg[k].ticket == ticket && asg[k].activo)
    ensures r.None? ==> forall k :: 0 <= k < |asg| ==> !(asg[k].ticket == ticket && asg[k].activo)
  {
    if asg == [] then None
    else if asg[0].ticket == ticket && asg[0].activo then Some(0)
    else
      var r := FirstActive(asg[1..], ticket);
      if r.Some? then Some(r.value + 1) else None
  }

  /** The technician guard: the ticket's active assignment names profile `tecnico`. */
  predicate AssignedTo(asg: seq<Asignacion>, ticket: nat, tecnico: Option<nat>) {
    var a := FirstActive(asg, ticket);
    a.Some? && tecnico.Some? && asg[a.value].tecnico == tecnico.value
  }

  /** `update_or_create(ticket=ticket, defaults={"tecnico_asignado": tecnico, "activo": True})`. */
  function Upsert(asg: seq<Asignacion>, ticket: nat, tecnico: nat, freshId: nat, now: int): seq<Asignacion> {
    match FindAssignment(asg, ticket)
    case Some(k) => asg[k := asg[k].(tecnico := tecnico, activo := true)]
    case None => asg + [Asignacion(freshId, ticket, tecnico, now, true)]
  }

  /** After the upsert the ticket still has a single assignment row, that row is active and
      names the chosen technician, it is what the technician view finds, and every other
      ticket's row is as it was. */
  lemma UpsertAssigns(asg: seq<Asignacion>, ticket: nat, tecnico: nat, freshId: nat, now: int)
    requires OneAssignmentPerTicket(asg)
    ensures var r := Upsert(asg, ticket, tecnico, freshId, now);
      && OneAssignmentPerTicket(r)
      && AssignedTo(r, ticket, Some(tecnico))
      && |r| == |asg| + (if FindAssignment(asg, ticket).None? then 1 else 0)
      && (forall k :: 0 <= k < |asg| && asg[k].ticket != ticket ==> r[k] == asg[k])
      && (forall k :: |asg| <= k < |r| ==> r[k].ticket == ticket)
      && (forall k :: 0 <= k < |r| ==> (r[k].ticket == ticket && r[k].tecnico == tecnico) || (k < |asg| && r[k] == asg[k]))
  {
    var r := Upsert(asg, ticket, tecnico, freshId, now);
    var k := if FindAssignment(asg, ticket).Some? then FindAssignment(asg, ticket).value else |asg|;
    assert r[k].ticket == ticket && r[k].activo && r[k].tecnico == tecnico;
    assert OneAssignmentPerTicket(r);
    var f := FirstActive(r, ticket);
    assert f.Some?;
    assert f.value == k;
  }

  // ----------------------------------------------------------------------------------
  // Admin edits and the SLA objective
  // ----------------------------------------------------------------------------------

  /** The ticket with the form's non-empty ids written into it. */
  function Edited(t: Ticket, f: AdminForm): (r: Ticket)
    ensures r.categoria == (if f.categoria.Some? then f.categoria else t.categoria)
    ensures r.prioridad == (if f.prioridad.Some? then f.prioridad else t.prioridad)
    ensures r.area == (if f.area.Some? then f.area.value else t.area)
    ensures r.estado == (if f.estado.Some? then f.estado.value else t.estado)
    ensures r.(categoria := t.categoria, prioridad := t.prioridad, area := t.area, estado := t.estado) == t
  {
    var t1 := if f.categoria.Some? then t.(categoria := f.categoria) else t;
    var t2 := if f.prioridad.Some? then t1.(prioridad := f.prioridad) else t1;
    var t3 := if f.area.Some? then t2.(area := f.area.value) else t2;
    if f.estado.Some? then t3.(estado := f.estado.value) else t3
  }

  /** The comment form was sent, with text that is not blank after stripping. */
  predicate IsComment(texto: Option<string>) {
    texto.Some? && Strip(texto.value) != []
  }

  /** `comentario or default`. */
  function OrDefault(c: string, default: string): (r: string)
    ensures r != [] <== default != []
    ensures c != [] ==> r == c
    ensures c == [] ==> r == default
  {
    if c == [] then default else c
  }

  /** `duracion_horas <= sla_horas_objetivo` for a closed ticket with an objective: the
      closed-minus-created duration, in seconds, is within the objective's hours. */
  predicate WithinObjective(t: Ticket)
    requires t.slaHorasObjetivo.Some? && t.cierre.Some?
  {
    t.cierre.value - t.creacion <= t.slaHorasObjetivo.value * SecondsPerHour
  }

  /** The SLA sentence of the admin's success message: None when the ticket has no close
      stamp or no (nonzero) objective, otherwise whether it met the objective. */
  function SlaFlash(t: Ticket): (r: Option<bool>)
    ensures r.Some? <==> t.cierre.Some? && t.slaHorasObjetivo.Some? && t.slaHorasObjetivo.value > 0
    ensures r.Some? ==> r.value == WithinObjective(t)
  {
    if t.cierre.Some? && t.slaHorasObjetivo.Some? && t.slaHorasObjetivo.value != 0 then
      Some(t.cierre.value - t.creacion <= t.slaHorasObjetivo.value * SecondsPerHour)
    else None
  }

  // ----------------------------------------------------------------------------------
  // Reports: SLA compliance and burndown
  // ----------------------------------------------------------------------------------

  predicate HasObjective(t: Ticket) {
    t.slaHorasObjetivo.Some? && t.cierre.Some?
  }

  /** `tickets_con_sla.count()`. */
  function CountConSla(rows: seq<Ticket>): nat {
    if rows == [] then 0
    else CountConSla(rows[..|rows| - 1]) + (if HasObjective(rows[|rows| - 1]) then 1 else 0)
  }

  /** `dentro_sla` as the loop leaves it. */
  function CountDentro(rows: seq<Ticket>): nat {
    if rows == [] then 0
    else
      var t := rows[|rows| - 1];
      CountDentro(rows[..|rows| - 1]) + (if HasObjective(t) && WithinObjective(t) then 1 else 0)
  }

  /** The compliance numbers of `reportes_dashboard`: tickets within their objective, and
      tickets with an objective and a close stamp. */
  method SlaCompliance(rows: seq<Ticket>) returns (dentro: nat, total: nat)
    ensures dentro == CountDentro(rows) && total == CountConSla(rows)
  {
    dentro, total := 0, 0;
    var i := 0;
    while i < |rows|
      invariant 0 <= i <= |rows|
      invariant dentro == CountDentro(rows[..i]) && total == CountConSla(rows[..i])
    {
      assert rows[..i + 1][..i] == rows[..i];
      var t := rows[i];
      if t.slaHorasObjetivo.Some? && t.cierre.Some? {
        total := total + 1;
        if t.cierre.value - t.creacion <= t.slaHorasObjetivo.value * SecondsPerHour {
          dentro := dentro + 1;
        }
      }
      i := i + 1;
    }
    assert rows[..i] == rows;
  }

  /** The compliance count never exceeds the tickets measured, and the percentage is
      undefined (None) exactly when no ticket has both an objective and a close stamp. */
  lemma {:induction false} ComplianceBounds(rows: seq<Ticket>)
    ensures CountDentro(rows) <= CountConSla(rows) <= |rows|
    ensures CountConSla(rows) == 0 <==> forall k :: 0 <= k < |rows| ==> !HasObjective(rows[k])
  {
    if rows != [] {
      var init := rows[..|rows| - 1];
      ComplianceBounds(init);
      assert forall k :: 0 <= k < |init| ==> init[k] == rows[k];
    }
  }

  /** The flash message and the report agree on tickets with a nonzero objective. */
  lemma FlashAgreesWithReport(t: Ticket)
    requires HasObjective(t) && t.slaHorasObjetivo.value > 0
    ensures SlaFlash(t) == Some(true) <==> CountDentro([t]) == 1
    ensures CountConSla([t]) == 1
  {
    assert [t][..0] == [];
  }

  const SecondsPerDay: int := 86400

  /** The calendar day of a timestamp (days since the epoch, flooring). */
  function DayOf(ts: int): int { ts / SecondsPerDay }

  /** Counted in the backlog of day `dia`: created by then, and not (final and closed by then). */
  predicate PendingOn(t: Ticket, finales: set<nat>, dia: int) {
    DayOf(t.creacion) <= dia && !(t.estado in finales && t.cierre.Some? && DayOf(t.cierre.value) <= dia)
  }

  function BacklogOn(rows: seq<Ticket>, finales: set<nat>, dia: int): nat {
    if rows == [] then 0
    else BacklogOn(rows[..|rows| - 1], finales, dia) + (if PendingOn(rows[|rows| - 1], finales, dia) then 1 else 0)
  }

  function CreatedBy(rows: seq<Ticket>, dia: int): nat {
    if rows == [] then 0
    else CreatedBy(rows[..|rows| - 1], dia) + (if DayOf(rows[|rows| - 1].creacion) <= dia then 1 else 0)
  }

  predicate ClosedOn(t: Ticket, finales: set<nat>, dia: int) {
    t.estado in finales && t.cierre.Some? && DayOf(t.cierre.value) <= dia
  }

  function ClosedBy(rows: seq<Ticket>, finales: set<nat>, dia: int): nat {
    if rows == [] then 0
    else ClosedBy(rows[..|rows| - 1], finales, dia) + (if ClosedOn(rows[|rows| - 1], finales, dia) then 1 else 0)
  }

  /** Every ticket closed after it was created: the backlog of a day is the tickets created
      by then minus those closed in a final status by then. */
  lemma {:induction false} BacklogIsCreatedMinusClosed(rows: seq<Ticket>, finales: set<nat>, dia: int)
    requires forall k :: 0 <= k < |rows| && rows[k].cierre.Some? ==> rows[k].creacion <= rows[k].cierre.value
    ensures BacklogOn(rows, finales, dia) + ClosedBy(rows, finales, dia) == CreatedBy(rows, dia)
  {
    if rows != [] {
      var init := rows[..|rows| - 1];
      assert forall k :: 0 <= k < |init| ==> init[k] == rows[k];
      BacklogIsCreatedMinusClosed(init, finales, dia);
      var t := rows[|rows| - 1];
      if t.cierre.Some? {
        assert t.creacion <= t.cierre.value;
        assert DayOf(t.creacion) <= DayOf(t.cierre.value);
      }
    }
  }

  /** The burndown series: the backlog of each of the seven days ending today, oldest first. */
  method Burndown(rows: seq<Ticket>, finales: set<nat>, now: int) returns (serie: seq<nat>)
    ensures |serie| == 7
    ensures forall k :: 0 <= k < 7 ==> serie[k] == BacklogOn(rows, finales, DayOf(now) - 6 + k)
  {
    var hoy := DayOf(now);
    serie := [];
    var i := 6;
    while i >= 0
      invariant -1 <= i <= 6
      invariant |serie| == 6 - i
      invariant forall k :: 0 <= k < |serie| ==> serie[k] == BacklogOn(rows, finales, hoy - 6 + k)
    {
      var dia := hoy - i;
      var pendientes := 0;
      var j := 0;
      while j < |rows|
        invariant 0 <= j <= |rows|
        invariant pendientes == BacklogOn(rows[..j], finales, dia)
      {
        assert rows[..j + 1][..j] == rows[..j];
        if PendingOn(rows[j], finales, dia) {
          pendientes := pendientes + 1;
        }
        j := j + 1;
      }
      assert rows[..j] == rows;
      serie := serie + [pendientes];
      i := i - 1;
    }
  }

  // ----------------------------------------------------------------------------------
  // Password rules
  // ----------------------------------------------------------------------------------

  datatype PasswordVerdict = WrongCurrent | Mismatch | TooShort | Accepted

  /** `editar_perfil`'s password branch: the current password must check, the two new
      values must agree, and the new one must have at least 8 characters, tested in that
      order. `actualOk` is the outcome of `check_password`. */
  function ProfilePasswordChange(actualOk: bool, nueva: string, confirmar: string): (r: PasswordVerdict)
    ensures r == Accepted <==> actualOk && nueva == confirmar && |nueva| >= 8
    ensures !actualOk ==> r == WrongCurrent
    ensures actualOk && nueva != confirmar ==> r == Mismatch
    ensures r == TooShort <==> actualOk && nueva == confirmar && |nueva| < 8
  {
    if !actualOk then WrongCurrent
    else if nueva != confirmar then Mismatch
    else if |nueva| < 8 then TooShort
    else Accepted
  }

  datatype AdminPassword = KeepPassword | RejectShort | SetPassword(password: string)

  /** `usuarios_editar`'s optional password: blank after stripping keeps the old one;
      otherwise the stripped value is set when it has at least 8 characters. */
  function AdminPasswordChange(raw: string): (r: AdminPassword)
    ensures r == KeepPassword <==> AllSpace(raw)
    ensures r.SetPassword? ==> r.password == Strip(raw) && |r.password| >= 8
    ensures r == RejectShort <==> !AllSpace(raw) && |Strip(raw)| < 8
  {
    StripEmptyIff(raw);
    var p := Strip(raw);
    if p == [] then KeepPassword
    else if |p| < 8 then RejectShort
    else SetPassword(p)
  }

  /** A password shorter than 8 characters is never accepted by either form, and padding
      with spaces does not help on the admin form. */
  lemma ShortPasswordsRejected(actualOk: bool, p: string, pad: string)
    requires |p| < 8 && AllSpace(pad)
    ensures ProfilePasswordChange(actualOk, p, p) != Accepted
    ensures !AdminPasswordChange(pad + p + pad).SetPassword?
  {
    var s := pad + p + pad;
    StripEnds(s);
    StripShape(s);
    var i, j :| 0 <= i <= j <= |s| && Strip(s) == s[i..j] && AllSpace(s[..i]) && AllSpace(s[j..]);
    forall k | 0 <= k < |pad| ensures IsSpace(s[k]) {
      assert s[k] == pad[k];
    }
    forall k | |pad| + |p| <= k < |s| ensures IsSpace(s[k]) {
      assert s[k] == pad[k - |pad| - |p|];
    }
    if i < j {
      assert !IsSpace(s[i]) && !IsSpace(s[j - 1]) by {
        assert s[i] == Strip(s)[0] && s[j - 1] == Strip(s)[j - i - 1];
      }
    }
  }

  // ----------------------------------------------------------------------------------
  // Administrators and the creation fan-out
  // ----------------------------------------------------------------------------------

  /** `r` holds exactly the users of `us` whose role is ADMIN up to case. */
  ghost predicate AdminsOf(us: seq<Usuario>, r: seq<Usuario>) {
    forall u {:trigger u in r} :: u in r <==> u in us && HasRoleIgnoringCase(u, "ADMIN")
  }

  /** `Usuario.objects.filter(rol__nombre_rol__iexact="ADMIN")`, in table order: exactly
      the users whose role is ADMIN up to case, and no more of them than there are users. */
  function Admins(us: seq<Usuario>): (r: seq<Usuario>)
    ensures |r| <= |us|
    ensures AdminsOf(us, r)
  {
    if us == [] then []
    else
      var init := Admins(us[..|us| - 1]);
      var last := us[|us| - 1];
      assert us == us[..|us| - 1] + [last];
      if HasRoleIgnoringCase(last, "ADMIN") then init + [last] else init
  }

  /** One notification per administrator, with consecutive ids from `firstId`. */
  function Fanout(admins: seq<Usuario>, firstId: nat, ticket: Option<nat>, tipo: string,
                  titulo: string, mensaje: string, now: int): (r: seq<Notificacion>)
    ensures |r| == |admins|
    ensures forall k :: 0 <= k < |r| ==>
              r[k] == Note(firstId + k, ticket, admins[k].id, tipo, titulo, mensaje, now)
  {
    seq(|admins|, k requires 0 <= k < |admins| =>
      Note(firstId + k, ticket, admins[k].id, tipo, titulo, mensaje, now))
  }

  /** Every administrator, and nobody else, receives one of the fan-out's notices. */
  lemma FanoutReachesAdmins(us: seq<Usuario>, firstId: nat, ticket: Option<nat>, tipo: string,
                            titulo: string, mensaje: string, now: int, uid: nat)
    ensures var f := Fanout(Admins(us), firstId, ticket, tipo, titulo, mensaje, now);
      (exists k :: 0 <= k < |f| && f[k].destino == uid) <==>
        (exists u :: u in us && u.id == uid && HasRoleIgnoringCase(u, "ADMIN"))
  {
    var a := Admins(us);
    var f := Fanout(a, firstId, ticket, tipo, titulo, mensaje, now);
    forall k | 0 <= k < |f| && f[k].destino == uid
      ensures exists u :: u in us && u.id == uid && HasRoleIgnoringCase(u, "ADMIN")
    {
      assert a[k] in a;
    }
    forall u | u in us && u.id == uid && HasRoleIgnoringCase(u, "ADMIN")
      ensures exists k :: 0 <= k < |f| && f[k].destino == uid
    {
      assert u in a;
      var k :| 0 <= k < |a| && a[k] == u;
      assert f[k].destino == uid;
    }
  }

  lemma FanoutSnoc(admins: seq<Usuario>, u: Usuario, firstId: nat, ticket: Option<nat>, tipo: string,
                   titulo: string, mensaje: string, now: int)
    ensures Fanout(admins + [u], firstId, ticket, tipo, titulo, mensaje, now) ==
            Fanout(admins, firstId, ticket, tipo, titulo, mensaje, now)
              + [Note(firstId + |admins|, ticket, u.id, tipo, titulo, mensaje, now)]
  {
    var l := Fanout(admins + [u], firstId, ticket, tipo, titulo, mensaje, now);
    var r := Fanout(admins, firstId, ticket, tipo, titulo, mensaje, now)
               + [Note(firstId + |admins|, ticket, u.id, tipo, titulo, mensaje, now)];
    assert forall k :: 0 <= k < |l| ==> l[k] == r[k];
  }

  /** One more user examined by the fan-out loop: an administrator adds one notice with
      the next id after the rows already appended, anyone else adds nothing. */
  lemma FanoutStep(base: seq<Notificacion>, us: seq<Usuario>, i: nat, firstId: nat, ticket: Option<nat>,
                   tipo: string, titulo: string, mensaje: string, now: int)
    requires i < |us|
    ensures var a, a' := Admins(us[..i]), Admins(us[..i + 1]);
      && |a'| == |a| + (if HasRoleIgnoringCase(us[i], "ADMIN") then 1 else 0)
      && base + Fanout(a', firstId, ticket, tipo, titulo, mensaje, now) ==
           base + Fanout(a, firstId, ticket, tipo, titulo, mensaje, now)
             + (if HasRoleIgnoringCase(us[i], "ADMIN")
                then [Note(firstId + |a|, ticket, us[i].id, tipo, titulo, mensaje, now)] else [])
  {
    assert us[..i + 1][..i] == us[..i];
    var a := Admins(us[..i]);
    if HasRoleIgnoringCase(us[i], "ADMIN") {
      FanoutSnoc(a, us[i], firstId, ticket, tipo, titulo, mensaje, now);
    }
  }

  /** The ticket as the admin update saves it: the form's ids, the close stamp its new
      status `esFinal` calls for, and the update time. */
  function SavedEdit(t: Ticket, f: AdminForm, esFinal: bool, now: int): (r: Ticket)
    ensures r.cierre.Some? <==> esFinal
  {
    Edited(t, f).(cierre := CloseStamp(esFinal, t.cierre, now), actualizacion := now)
  }

  /** The notices of an admin update: the technician's assignment notice when one is named,
      then the requester's status notice, with consecutive ids from `firstId`. */
  function UpdateNotes(firstId: nat, ticketId: nat, solicitante: nat, titulo: string, estado: string,
                       tec: Option<Tecnico>, now: int): seq<Notificacion>
  {
    var state := Note(firstId + (if tec.Some? then 1 else 0), Some(ticketId), solicitante, "cambio_estado",
                      UpdateTitle(ticketId), UpdateMessage(estado), now);
    if tec.Some? then
      [Note(firstId, Some(ticketId), tec.value.usuario, "asignacion", AssignTitle(ticketId), AssignMessage(titulo), now), state]
    else [state]
  }

  /** The update notices go to the requester and, when one is named, to the technician,
      with consecutive ids; the last one always reports the new status. */
  lemma UpdateNotesRecipients(firstId: nat, ticketId: nat, solicitante: nat, titulo: string, estado: string,
                              tec: Option<Tecnico>, now: int)
    ensures var r := UpdateNotes(firstId, ticketId, solicitante, titulo, estado, tec, now);
      && |r| == (if tec.Some? then 2 else 1)
      && (forall k :: 0 <= k < |r| ==> r[k].id == firstId + k && r[k].ticket == Some(ticketId) && !r[k].leida)
      && r[|r| - 1].destino == solicitante && r[|r| - 1].mensaje == UpdateMessage(estado)
      && (tec.Some? ==> r[0].destino == tec.value.usuario && r[0].mensaje == AssignMessage(titulo))
  {
  }

  // ----------------------------------------------------------------------------------
  // Ratings
  // ----------------------------------------------------------------------------------

  /** The row a rating form creates: the resolved flag is set only by the value "si", and
      the comment is stripped. */
  function NewRating(ticket: nat, user: nat, score: int, resueltoRaw: Option<string>, comentarioRaw: string, now: int): Calificacion {
    Calificacion(ticket, user, score, resueltoRaw == Some("si"), Strip(comentarioRaw), now)
  }

  /** `CalificacionTicket.objects.get_or_create(ticket=..., defaults=...)`: the ratings
      afterwards, or None when the insert is refused for a negative score. */
  function Rate(cal: map<nat, Calificacion>, ticket: nat, user: nat, score: int, resueltoRaw: Option<string>,
                comentarioRaw: string, now: int): (r: Option<map<nat, Calificacion>>)
    ensures ticket in cal ==> r == Some(cal)
    ensures ticket !in cal && score < 0 ==> r.None?
    ensures ticket !in cal && score >= 0 ==>
              r == Some(cal[ticket := NewRating(ticket, user, score, resueltoRaw, comentarioRaw, now)])
  {
    if ticket in cal then Some(cal)
    else if score < 0 then None
    else Some(cal[ticket := NewRating(ticket, user, score, resueltoRaw, comentarioRaw, now)])
  }

  /** A second submission leaves the first rating's score, resolved flag and comment as
      they were; each ticket keeps at most one rating. */
  lemma SecondRatingKeepsFirst(cal: map<nat, Calificacion>, ticket: nat, user: nat, s1: int, s2: int,
                               r1: Option<string>, r2: Option<string>, c1: string, c2: string, t1: int, t2: int)
    requires ticket !in cal && s1 >= 0
    ensures var first := Rate(cal, ticket, user, s1, r1, c1, t1);
      && first.Some?
      && Rate(first.value, ticket, user, s2, r2, c2, t2) == first
      && first.value[ticket].puntuacion == s1
      && first.value[ticket].resuelto == (r1 == Some("si"))
      && first.value[ticket].comentario == Strip(c1)
  {
  }

  /** A rating table keyed by ticket stays keyed by ticket: a new rating is filed under its
      own ticket and no other entry moves. */
  lemma RateKeyed(cal: map<nat, Calificacion>, ticket: nat, user: nat, score: int, resueltoRaw: Option<string>,
                  comentarioRaw: string, now: int)
    requires forall id :: id in cal ==> cal[id].ticket == id
    ensures var r := Rate(cal, ticket, user, score, resueltoRaw, comentarioRaw, now);
      r.Some? ==> && r.value.Keys == cal.Keys + {ticket}
                  && (forall id :: id in r.value ==> r.value[id].ticket == id)
                  && (forall id :: id in cal ==> r.value[id] == cal[id])
  {
  }

  // ----------------------------------------------------------------------------------
  // Users
  // ----------------------------------------------------------------------------------

  function FindUser(us: seq<Usuario>, uid: nat): (r: Option<Usuario>)
    ensures r.Some? ==> r.value in us && r.value.id == uid
    ensures r.None? ==> forall k :: 0 <= k < |us| ==> us[k].id != uid
  {
    if us == [] then None
    else if us[|us| - 1].id == uid then Some(us[|us| - 1])
    else FindUser(us[..|us| - 1], uid)
  }

  /** The profile id of user `uid`, if it has one. */
  function ProfileIdOf(ts: seq<Tecnico>, uid: nat): (r: Option<nat>)
    ensures r.Some? <==> FindProfile(ts, uid).Some?
  {
    match FindProfile(ts, uid)
    case Some(k) => Some(ts[k].id)
    case None => None
  }

  datatype RecoveryOutcome = EmptyEmail | AdminMustContactIT | RequestAccepted

  /** How `usuarios_editar`'s POST ends. `NameMissing`, `EmailTaken` and `UnknownRole` are
      the IntegrityError of `usuario.save()` (a NOT NULL name, the unique e-mail, the role
      foreign key, checked in that order), after which nothing is written. */
  datatype EditOutcome = EditForbidden | UserNotFound | PasswordTooShort | NameMissing | EmailTaken | UnknownRole
                       | UserSaved(passwordChanged: bool)

  // ----------------------------------------------------------------------------------
  // The desk
  // ----------------------------------------------------------------------------------

  /** The ticket tables of the database: each table's own constraints and its foreign
      keys, one predicate per table so that a write to one table leaves the others' facts
      untouched. */
  ghost predicate TablesOk(estados: seq<EstadoTicket>, nextEstadoId: nat, tickets: map<nat, Ticket>, nextTicketId: nat,
                           asignaciones: seq<Asignacion>, historial: seq<Historial>, comentarios: seq<Comentario>,
                           calificaciones: map<nat, Calificacion>)
  {
    && EstadosOk(estados, nextEstadoId)
    && TicketsOk(tickets, nextTicketId)
    && StatusesStored(estados, tickets)
    && AsignacionesOk(asignaciones, tickets)
    && HistorialOk(historial, tickets)
    && ComentariosOk(comentarios, tickets)
    && CalificacionesOk(calificaciones, tickets)
  }

  /** Unique status ids and names, all below the next id. */
  ghost predicate EstadosOk(estados: seq<EstadoTicket>, nextEstadoId: nat) {
    UniqueEstados(estados) && forall k :: 0 <= k < |estados| ==> estados[k].id < nextEstadoId
  }

  /** Tickets keyed by their ids, all below the next id. */
  ghost predicate TicketsOk(tickets: map<nat, Ticket>, nextTicketId: nat) {
    forall id :: id in tickets ==> tickets[id].id == id && id < nextTicketId
  }

  /** The `estado` foreign key: every ticket's status is a row of the catalog. */
  ghost predicate StatusesStored(estados: seq<EstadoTicket>, tickets: map<nat, Ticket>) {
    forall id :: id in tickets ==> FindEstado(estados, tickets[id].estado).Some?
  }

  /** One assignment per ticket, each of a stored ticket. */
  ghost predicate AsignacionesOk(asignaciones: seq<Asignacion>, tickets: map<nat, Ticket>) {
    OneAssignmentPerTicket(asignaciones) && forall k :: 0 <= k < |asignaciones| ==> asignaciones[k].ticket in tickets
  }

  ghost predicate HistorialOk(historial: seq<Historial>, tickets: map<nat, Ticket>) {
    forall k :: 0 <= k < |historial| ==> historial[k].ticket in tickets
  }

  ghost predicate ComentariosOk(comentarios: seq<Comentario>, tickets: map<nat, Ticket>) {
    forall k :: 0 <= k < |comentarios| ==> comentarios[k].ticket in tickets
  }

  /** At most one rating per ticket, keyed by the ticket, of a stored ticket. */
  ghost predicate CalificacionesOk(calificaciones: map<nat, Calificacion>, tickets: map<nat, Ticket>) {
    forall id :: id in calificaciones ==> calificaciones[id].ticket == id && id in tickets
  }

  class HelpDesk {
    const dir: Directory
    const inbox: NotificationTable
    var estados: seq<EstadoTicket>
    var nextEstadoId: nat
    var categorias: set<nat>
    var prioridades: set<nat>
    var areas: set<nat>
    var tickets: map<nat, Ticket>
    var nextTicketId: nat
    var asignaciones: seq<Asignacion>
    var nextAsignacionId: nat
    var historial: seq<Historial>
    var nextHistorialId: nat
    var comentarios: seq<Comentario>
    var nextComentarioId: nat
    var calificaciones: map<nat, Calificacion>

    ghost predicate Valid()
      reads this, dir, inbox
    {
      dir.Valid() && inbox.Valid() && TablesValid() && AssigneesStored()
    }

    /** Every assignment names a stored technician profile (the foreign key
        `tecnico_asignado`). */
    predicate AssigneesStored()
      reads this, dir
    {
      forall k :: 0 <= k < |asignaciones| ==> FindTecnico(dir.tecnicos, asignaciones[k].tecnico).Some?
    }

    /** The ticket tables' own invariant: unique status ids and names, tickets keyed by
        their ids, one assignment per ticket, and every row referring to a stored ticket. */
    ghost predicate TablesValid()
      reads this
    {
      TablesOk(estados, nextEstadoId, tickets, nextTicketId, asignaciones, historial, comentarios, calificaciones)
    }

    /** Every id the admin form writes names a row: the status the ticket ends with, and
        the category, priority and area the form gives. */
    predicate RefsOk(e: Ticket, f: AdminForm)
      reads this
    {
      FindEstado(estados, e.estado).Some? && FormIdsOk(f)
    }

    /** The category, priority and area ids the admin form gives name rows. */
    predicate FormIdsOk(f: AdminForm)
      reads this
    {
      && (f.categoria.Some? ==> f.categoria.value in categorias)
      && (f.prioridad.Some? ==> f.prioridad.value in prioridades)
      && (f.area.Some? ==> f.area.value in areas)
    }

    /** The user behind the ticket's active assignment: present exactly when the ticket
        has one, since every assignment names a stored profile. */
    function AssigneeUser(ticketId: nat): (r: Option<nat>)
      reads this, dir
      ensures r.Some? ==> FirstActive(asignaciones, ticketId).Some?
      ensures AssigneesStored() && FirstActive(asignaciones, ticketId).Some? ==> r.Some?
      ensures r.Some? ==> exists t :: t in dir.tecnicos && t.usuario == r.value
                                     && t.id == asignaciones[FirstActive(asignaciones, ticketId).value].tecnico
    {
      match FirstActive(asignaciones, ticketId)
      case None => None
      case Some(k) =>
        match dir.TecnicoById(asignaciones[k].tecnico)
        case None => None
        case Some(t) => Some(t.usuario)
    }

    /** An empty desk over the role table `roles`. */
    constructor (roles: seq<Rol>)
      ensures Valid() && fresh(dir) && fresh(inbox)
      ensures dir.roles == roles && dir.usuarios == []
      ensures tickets == map[] && historial == [] && asignaciones == []
    {
      dir := new Directory(roles);
      inbox := new NotificationTable();
      estados, nextEstadoId := [], 0;
      categorias, prioridades, areas := {}, {}, {};
      tickets, nextTicketId := map[], 0;
      asignaciones, nextAsignacionId := [], 0;
      historial, nextHistorialId := [], 0;
      comentarios, nextComentarioId := [], 0;
      calificaciones := map[];
    }

    // --- single-table steps -----------------------------------------------------------

    /** `ticket.save()` of a stored ticket. */
    method SaveTicket(t: Ticket)
      requires Valid() && t.id in tickets && FindEstado(estados, t.estado).Some?
      modifies this`tickets
      ensures Valid()
      ensures tickets == old(tickets)[t.id := t]
    {
      tickets := tickets[t.id := t];
    }

    /** `AsignacionTicket.objects.update_or_create(ticket=..., defaults=...)`. */
    method AssignTicket(ticketId: nat, tecnico: nat, now: int)
      requires Valid() && ticketId in tickets && FindTecnico(dir.tecnicos, tecnico).Some?
      modifies this`asignaciones, this`nextAsignacionId
      ensures Valid()
      ensures asignaciones == Upsert(old(asignaciones), ticketId, tecnico, old(nextAsignacionId), now)
      ensures AssignedTo(asignaciones, ticketId, Some(tecnico))
      ensures nextAsignacionId == old(nextAsignacionId) + (if FindAssignment(old(asignaciones), ticketId).None? then 1 else 0)
    {
      ghost var before := asignaciones;
      UpsertAssigns(asignaciones, ticketId, tecnico, nextAsignacionId, now);
      var added := if FindAssignment(asignaciones, ticketId).None? then 1 else 0;
      asignaciones, nextAsignacionId := Upsert(asignaciones, ticketId, tecnico, nextAsignacionId, now), nextAsignacionId + added;
      forall k | 0 <= k < |asignaciones|
        ensures asignaciones[k].ticket in tickets && FindTecnico(dir.tecnicos, asignaciones[k].tecnico).Some?
      {
        if asignaciones[k].tecnico != tecnico || asignaciones[k].ticket != ticketId {
          assert asignaciones[k] == before[k];
        }
      }
    }

    /** `HistorialTicket.objects.create(...)`: the history only grows. */
    method Record(ticket: nat, user: nat, anterior: Option<nat>, nuevo: nat, comentario: string, now: int)
      requires Valid() && ticket in tickets
      modifies this`historial, this`nextHistorialId
      ensures Valid()
      ensures historial == old(historial) + [Historial(old(nextHistorialId), ticket, Some(user), anterior, Some(nuevo), comentario, now)]
    {
      historial := historial + [Historial(nextHistorialId, ticket, Some(user), anterior, Some(nuevo), comentario, now)];
      nextHistorialId := nextHistorialId + 1;
    }

    /** The comment a view stores, and the notification it sends to `destino` if any. */
    twostate predicate CommentEffect(ticketId: nat, user: nat, texto: string, archivo: Option<string>,
                                     destino: Option<nat>, mensaje: string, now: int)
      reads this, inbox
    {
      && comentarios == old(comentarios) + [Comentario(old(nextComentarioId), ticketId, user, texto, archivo, now)]
      && inbox.rows == old(inbox.rows)
           + (if destino.Some? then [Note(old(inbox.nextId), Some(ticketId), destino.value, "", CommentTitle(ticketId), mensaje, now)] else [])
    }

    /** `ComentarioTicket.objects.create(...)` followed by the view's notification. */
    method CommentAndNotify(ticketId: nat, user: nat, texto: string, archivo: Option<string>,
                            destino: Option<nat>, mensaje: string, now: int)
      requires Valid() && ticketId in tickets
      modifies this`comentarios, this`nextComentarioId, inbox
      ensures Valid()
      ensures CommentEffect(ticketId, user, texto, archivo, destino, mensaje, now)
    {
      comentarios := comentarios + [Comentario(nextComentarioId, ticketId, user, texto, archivo, now)];
      nextComentarioId := nextComentarioId + 1;
      if destino.Some? {
        var _ := inbox.Send(Some(ticketId), destino.value, "", CommentTitle(ticketId), mensaje, Portal, now);
      }
    }

    /** The loop over `Usuario.objects.filter(rol__nombre_rol__iexact="ADMIN")` creating one
        notification each. */
    method NotifyAdmins(ticket: Option<nat>, tipo: string, titulo: string, mensaje: string, now: int)
      requires Valid()
      modifies inbox
      ensures Valid()
      ensures inbox.rows == old(inbox.rows) + Fanout(Admins(dir.usuarios), old(inbox.nextId), ticket, tipo, titulo, mensaje, now)
    {
      var us := dir.usuarios;
      ghost var base, first := inbox.rows, inbox.nextId;
      var i := 0;
      while i < |us|
        invariant 0 <= i <= |us|
        invariant inbox.Valid()
        invariant inbox.rows == base + Fanout(Admins(us[..i]), first, ticket, tipo, titulo, mensaje, now)
        invariant inbox.nextId == first + |Admins(us[..i])|
      {
        FanoutStep(base, us, i, first, ticket, tipo, titulo, mensaje, now);
        if HasRoleIgnoringCase(us[i], "ADMIN") {
          var n := inbox.Send(ticket, us[i].id, tipo, titulo, mensaje, Portal, now);
          assert [n] == [Note(first + |Admins(us[..i])|, ticket, us[i].id, tipo, titulo, mensaje, now)];
        }
        i := i + 1;
      }
      assert us[..i] == us;
    }

    // --- tickets_detalle (administrator) ----------------------------------------------

    /** What follows the save of an admin update: the named technician's single active
        assignment, one history entry from the old status `t.estado` to the form's, and the
        notices to the technician (if named) and to the requester. */
    twostate predicate FollowUpEffect(user: nat, ticketId: nat, t: Ticket, f: AdminForm, estado: string,
                                      tec: Option<Tecnico>, now: int)
      reads this, inbox
    {
      && comentarios == old(comentarios)
      && historial == old(historial) + [Historial(old(nextHistorialId), ticketId, Some(user), Some(t.estado),
                                                  Some(Edited(t, f).estado), OrDefault(f.comentario, AdminDefaultComment), now)]
      && asignaciones == (if tec.Some? then Upsert(old(asignaciones), ticketId, tec.value.id, old(nextAsignacionId), now)
                          else old(asignaciones))
      && (tec.Some? ==> AssignedTo(asignaciones, ticketId, Some(tec.value.id)))
      && inbox.rows == old(inbox.rows) + UpdateNotes(old(inbox.nextId), ticketId, t.solicitante, t.titulo, estado, tec, now)
    }

    /** What an admin update that passed the reference check leaves behind: the ticket
        saved with the form's ids, the close stamp of its new status and the update time;
        then, unless the named technician is unknown (a 404 after the save), the follow-up
        writes. */
    twostate predicate AdminUpdateEffect(user: nat, ticketId: nat, f: AdminForm, now: int, out: Outcome)
      reads this, dir, inbox
    {
      && ticketId in old(tickets)
      && var t := old(tickets)[ticketId];
         var est := FindEstado(estados, Edited(t, f).estado);
         var tec := if f.tecnico.Some? then dir.TecnicoById(f.tecnico.value) else None;
         && est.Some?
         && tickets == old(tickets)[ticketId := SavedEdit(t, f, est.value.esFinal, now)]
         && if f.tecnico.Some? && tec.None? then
              && out == TechnicianNotFound
              && comentarios == old(comentarios) && historial == old(historial)
              && asignaciones == old(asignaciones) && inbox.rows == old(inbox.rows)
            else
              && out == Updated(SlaFlash(tickets[ticketId]))
              && FollowUpEffect(user, ticketId, t, f, est.value.nombre, tec, now)
    }

    /** The writes after the save, in the view's order: assignment, history, notices. */
    method FollowUp(user: nat, ticketId: nat, t: Ticket, f: AdminForm, estado: string, tec: Option<Tecnico>, now: int)
      requires Valid() && ticketId in tickets && (tec.Some? ==> tec.value in dir.tecnicos)
      modifies this`asignaciones, this`nextAsignacionId, this`historial, this`nextHistorialId, inbox
      ensures Valid()
      ensures FollowUpEffect(user, ticketId, t, f, estado, tec, now)
    {
      if tec.Some? {
        AssignTicket(ticketId, tec.value.id, now);
      }
      Record(ticketId, user, Some(t.estado), Edited(t, f).estado, OrDefault(f.comentario, AdminDefaultComment), now);
      NotifyUpdate(ticketId, t.solicitante, t.titulo, estado, tec, now);
    }

    /** The two notices of an update, sent in the view's order. */
    method NotifyUpdate(ticketId: nat, solicitante: nat, titulo: string, estado: string, tec: Option<Tecnico>, now: int)
      requires Valid()
      modifies inbox
      ensures Valid()
      ensures inbox.rows == old(inbox.rows) + UpdateNotes(old(inbox.nextId), ticketId, solicitante, titulo, estado, tec, now)
    {
      if tec.Some? {
        var _ := inbox.Send(Some(ticketId), tec.value.usuario, "asignacion", AssignTitle(ticketId), AssignMessage(titulo), Portal, now);
      }
      var _ := inbox.Send(Some(ticketId), solicitante, "cambio_estado", UpdateTitle(ticketId), UpdateMessage(estado), Portal, now);
    }

    /** The update part of `tickets_detalle`'s POST, once the form's ids check out. */
    method AdminUpdate(user: nat, ticketId: nat, f: AdminForm, now: int) returns (out: Outcome)
      requires Valid() && ticketId in tickets && RefsOk(Edited(tickets[ticketId], f), f)
      modifies this`tickets, this`asignaciones, this`nextAsignacionId, this`historial, this`nextHistorialId, inbox
      ensures Valid()
      ensures AdminUpdateEffect(user, ticketId, f, now, out)
    {
      var t := tickets[ticketId];
      var est := FindEstado(estados, Edited(t, f).estado).value;
      var saved := SavedEdit(t, f, est.esFinal, now);
      assert saved.id == ticketId && saved.estado == Edited(t, f).estado;
      SaveTicket(saved);
      var tec := if f.tecnico.Some? then dir.TecnicoById(f.tecnico.value) else None;
      if f.tecnico.Some? && tec.None? {
        out := TechnicianNotFound;
      } else {
        FollowUp(user, ticketId, t, f, est.nombre, tec, now);
        out := Updated(SlaFlash(saved));
      }
      assert tickets[ticketId] == saved && old(tickets)[ticketId] == t;
      assert FindEstado(estados, Edited(t, f).estado) == Some(est);
      assert tec == if f.tecnico.Some? then dir.TecnicoById(f.tecnico.value) else None;
    }

    /** An admin POST that is not a comment: refused as a whole when one of the form's ids
        names no row, an update otherwise. A form without a status keeps the ticket's own,
        which is stored, so it is never refused for it. */
    twostate predicate AdminEditEffect(user: nat, ticketId: nat, f: AdminForm, now: int, out: Outcome)
      reads this, dir, inbox
    {
      && ticketId in old(tickets)
      && (f.estado.None? && old(FormIdsOk(f)) ==> out != InvalidReference)
      && if !old(RefsOk(Edited(tickets[ticketId], f), f)) then out == InvalidReference && unchanged(this, inbox)
         else AdminUpdateEffect(user, ticketId, f, now, out)
    }

    method AdminEdit(user: nat, ticketId: nat, f: AdminForm, now: int) returns (out: Outcome)
      requires Valid() && ticketId in tickets
      modifies this`tickets, this`asignaciones, this`nextAsignacionId, this`historial, this`nextHistorialId, inbox
      ensures Valid()
      ensures AdminEditEffect(user, ticketId, f, now, out)
    {
      assert FindEstado(estados, tickets[ticketId].estado).Some?;
      if !RefsOk(Edited(tickets[ticketId], f), f) {
        return InvalidReference;
      }
      out := AdminUpdate(user, ticketId, f, now);
    }

    /** What the admin's POST does to a stored ticket: a non-blank comment is stored and
        the requester notified; any other POST, a blank comment included, is an edit. */
    twostate predicate AdminTicketEffect(user: nat, ticketId: nat, f: AdminForm, now: int, out: Outcome)
      reads this, dir, inbox
    {
      && ticketId in old(tickets)
      && if IsComment(f.comentarioTexto) then
           && out == CommentAdded
           && CommentEffect(ticketId, user, Strip(f.comentarioTexto.value), f.archivo,
                            Some(old(tickets)[ticketId].solicitante), AdminCommentMessage, now)
           && tickets == old(tickets) && historial == old(historial) && asignaciones == old(asignaciones)
         else AdminEditEffect(user, ticketId, f, now, out)
    }

    method AdminOnTicket(user: nat, ticketId: nat, f: AdminForm, now: int) returns (out: Outcome)
      requires Valid() && ticketId in tickets
      modifies this`tickets, this`asignaciones, this`nextAsignacionId, this`historial, this`nextHistorialId
      modifies this`comentarios, this`nextComentarioId, inbox
      ensures Valid()
      ensures AdminTicketEffect(user, ticketId, f, now, out)
    {
      if IsComment(f.comentarioTexto) {
        CommentAndNotify(ticketId, user, Strip(f.comentarioTexto.value), f.archivo, Some(tickets[ticketId].solicitante),
                         AdminCommentMessage, now);
        return CommentAdded;
      }
      out := AdminEdit(user, ticketId, f, now);
    }

    /** The POST branch of `tickets_detalle`. */
    method AdminPost(user: Usuario, ticketId: nat, f: AdminForm, now: int) returns (out: Outcome)
      requires Valid()
      modifies this`tickets, this`asignaciones, this`nextAsignacionId, this`historial, this`nextHistorialId
      modifies this`comentarios, this`nextComentarioId, inbox
      ensures Valid()
      ensures !RequireRole(Authenticated(user), "ADMIN") ==> out == Forbidden && unchanged(this, inbox)
      ensures RequireRole(Authenticated(user), "ADMIN") && ticketId !in old(tickets) ==> out == NotFound && unchanged(this, inbox)
      ensures RequireRole(Authenticated(user), "ADMIN") && ticketId in old(tickets) ==> AdminTicketEffect(user.id, ticketId, f, now, out)
    {
      if !RequireRole(Authenticated(user), "ADMIN") {
        return Forbidden;
      }
      if ticketId !in tickets {
        return NotFound;
      }
      out := AdminOnTicket(user.id, ticketId, f, now);
    }

    // --- ticket_tecnico_detalle (technician) ------------------------------------------

    /** A technician's status change: the ticket gets the new status (or keeps its own),
        the close stamp that status calls for and the update time, and one history entry
        is appended. No notification is sent. */
    twostate predicate TechUpdateEffect(user: nat, ticketId: nat, f: TechForm, now: int)
      reads this, inbox
    {
      && ticketId in old(tickets)
      && var t := old(tickets)[ticketId];
         var nuevo := if f.estado.Some? then f.estado.value else t.estado;
         var est := FindEstado(estados, nuevo);
         && est.Some?
         && tickets == old(tickets)[ticketId := t.(estado := nuevo, cierre := CloseStamp(est.value.esFinal, t.cierre, now), actualizacion := now)]
         && (tickets[ticketId].cierre.Some? <==> est.value.esFinal)
         && historial == old(historial) + [Historial(old(nextHistorialId), ticketId, Some(user), Some(t.estado), Some(nuevo),
                                                     OrDefault(Strip(f.comentario), TechDefaultComment), now)]
         && comentarios == old(comentarios)
         && inbox.rows == old(inbox.rows)
    }

    /** The status half of the technician's POST: only the technician `perfil` of the
        ticket's active assignment may change it, and only to a stored status. A form
        without a status keeps the ticket's own, so the assignee's change then goes through. */
    twostate predicate TechStatusEffect(user: nat, perfil: Option<nat>, ticketId: nat, f: TechForm, now: int, out: Outcome)
      reads this, inbox
    {
      && ticketId in old(tickets)
      && (f.estado.None? && AssignedTo(asignaciones, ticketId, perfil) ==> out == StatusChanged)
      && var nuevo := if f.estado.Some? then f.estado.value else old(tickets)[ticketId].estado;
         if !AssignedTo(asignaciones, ticketId, perfil) then out == NotAssigned && unchanged(this, inbox)
         else if FindEstado(estados, nuevo).None? then out == InvalidReference && unchanged(this, inbox)
         else out == StatusChanged && TechUpdateEffect(user, ticketId, f, now)
    }

    method TechChangeStatus(user: nat, perfil: Option<nat>, ticketId: nat, f: TechForm, now: int) returns (out: Outcome)
      requires Valid() && ticketId in tickets
      modifies this`tickets, this`historial, this`nextHistorialId
      ensures Valid()
      ensures TechStatusEffect(user, perfil, ticketId, f, now, out)
    {
      if !AssignedTo(asignaciones, ticketId, perfil) {
        return NotAssigned;
      }
      var t := tickets[ticketId];
      var nuevo := if f.estado.Some? then f.estado.value else t.estado;
      if FindEstado(estados, nuevo).None? {
        return InvalidReference;
      }
      ApplyTechStatus(user, ticketId, f, now);
      out := StatusChanged;
    }

    method ApplyTechStatus(user: nat, ticketId: nat, f: TechForm, now: int)
      requires Valid() && ticketId in tickets
      requires FindEstado(estados, if f.estado.Some? then f.estado.value else tickets[ticketId].estado).Some?
      modifies this`tickets, this`historial, this`nextHistorialId
      ensures Valid()
      ensures TechUpdateEffect(user, ticketId, f, now)
    {
      var t := tickets[ticketId];
      var nuevo := if f.estado.Some? then f.estado.value else t.estado;
      var est := FindEstado(estados, nuevo).value;
      SaveTicket(t.(estado := nuevo, cierre := CloseStamp(est.esFinal, t.cierre, now), actualizacion := now));
      Record(ticketId, user, Some(t.estado), nuevo, OrDefault(Strip(f.comentario), TechDefaultComment), now);
    }

    /** What the technician's POST does to a ticket once the profile `perfil` is known: a
        missing ticket is a 404, a non-blank comment is stored and the requester notified,
        and anything else is a status change. */
    twostate predicate TechTicketEffect(user: Usuario, perfil: Option<nat>, ticketId: nat, f: TechForm, now: int, out: Outcome)
      reads this, inbox
    {
      if ticketId !in old(tickets) then out == NotFound && unchanged(this, inbox)
      else if IsComment(f.comentarioTexto) then
        && out == CommentAdded
        && CommentEffect(ticketId, user.id, Strip(f.comentarioTexto.value), f.archivo,
                         Some(old(tickets)[ticketId].solicitante), TechCommentMessage(user), now)
        && tickets == old(tickets) && historial == old(historial)
      else TechStatusEffect(user.id, perfil, ticketId, f, now, out)
    }

    method TechOnTicket(user: Usuario, perfil: Option<nat>, ticketId: nat, f: TechForm, now: int) returns (out: Outcome)
      requires Valid()
      modifies this`tickets, this`historial, this`nextHistorialId, this`comentarios, this`nextComentarioId, inbox
      ensures Valid()
      ensures TechTicketEffect(user, perfil, ticketId, f, now, out)
    {
      if ticketId !in tickets {
        return NotFound;
      }
      if IsComment(f.comentarioTexto) {
        CommentAndNotify(ticketId, user.id, Strip(f.comentarioTexto.value), f.archivo, Some(tickets[ticketId].solicitante),
                         TechCommentMessage(user), now);
        return CommentAdded;
      }
      out := TechChangeStatus(user.id, perfil, ticketId, f, now);
    }

    /** The POST branch of `ticket_tecnico_detalle`. The technician's profile is fetched or
        created first, whatever happens next. */
    method TechnicianPost(user: Usuario, ticketId: nat, f: TechForm, now: int) returns (out: Outcome)
      requires Valid() && dir.HasUser(user.id)
      modifies this`tickets, this`historial, this`nextHistorialId, this`comentarios, this`nextComentarioId, inbox, dir
      ensures Valid()
      ensures !RequireRole(Authenticated(user), "TECNICO") ==> out == Forbidden && unchanged(this, inbox, dir)
      ensures RequireRole(Authenticated(user), "TECNICO") ==>
                && dir.usuarios == old(dir.usuarios)
                && dir.tecnicos == GetOrCreateProfile(old(dir.tecnicos), user.id, old(dir.nextTecnicoId))
                && TechTicketEffect(user, ProfileIdOf(dir.tecnicos, user.id), ticketId, f, now, out)
    {
      if !RequireRole(Authenticated(user), "TECNICO") {
        return Forbidden;
      }
      var tecnico, _ := dir.EnsureProfile(user.id);
      assert ProfileIdOf(dir.tecnicos, user.id) == Some(tecnico.id) by {
        var k :| 0 <= k < |dir.tecnicos| && dir.tecnicos[k] == tecnico;
        FindProfileUnique(dir.tecnicos, user.id, k);
      }
      out := TechOnTicket(user, Some(tecnico.id), ticketId, f, now);
    }

    // --- ticket_usuario_crear (requester) ---------------------------------------------

    /** `EstadoTicket.objects.get_or_create(nombre_estado="Abierto", ...)` on the stored
        catalog. */
    method OpenStatus() returns (abierto: EstadoTicket)
      requires Valid()
      modifies this`estados, this`nextEstadoId
      ensures Valid()
      ensures (estados, abierto) == GetOrCreateAbierto(old(estados), old(nextEstadoId))
      ensures FindEstado(estados, abierto.id).Some?
    {
      GetOrCreateAbiertoIdempotent(estados, nextEstadoId, nextEstadoId);
      var es;
      es, abierto := GetOrCreateAbierto(estados, nextEstadoId).0, GetOrCreateAbierto(estados, nextEstadoId).1;
      if es != estados {
        forall id | id in tickets
          ensures FindEstado(es, tickets[id].estado).Some?
        {
          FindEstadoAppend(estados, abierto, tickets[id].estado);
        }
        estados, nextEstadoId := es, nextEstadoId + 1;
      }
      FindEstadoAppend(estados, abierto, abierto.id);
    }

    /** A created ticket: a fresh id, the form's fields in status `abierto`, one history
        entry without a previous status, and one `creacion` notice per administrator. */
    twostate predicate CreateEffect(user: Usuario, titulo: string, descripcion: string, area: nat,
                                    archivo: Option<string>, abierto: nat, now: int, id: nat)
      reads this, dir, inbox
    {
      && id == old(nextTicketId) && id !in old(tickets)
      && tickets == old(tickets)[id := Ticket(id, titulo, descripcion, user.id, None, None, None, area,
                                              abierto, archivo, now, now, None, None)]
      && historial == old(historial) + [Historial(old(nextHistorialId), id, Some(user.id), None, Some(abierto), CreationComment, now)]
      && inbox.rows == old(inbox.rows) + Fanout(Admins(dir.usuarios), old(inbox.nextId), Some(id), "creacion",
                                               CreateTitle(id), CreateMessage(user.email, titulo), now)
    }

    method CreateTicket(user: Usuario, titulo: string, descripcion: string, area: nat,
                        archivo: Option<string>, abierto: nat, now: int) returns (id: nat)
      requires Valid() && FindEstado(estados, abierto).Some?
      modifies this`tickets, this`nextTicketId, this`historial, this`nextHistorialId, inbox
      ensures Valid()
      ensures CreateEffect(user, titulo, descripcion, area, archivo, abierto, now, id)
    {
      id := nextTicketId;
      tickets := tickets[id := Ticket(id, titulo, descripcion, user.id, None, None, None, area,
                                      abierto, archivo, now, now, None, None)];
      nextTicketId := nextTicketId + 1;
      Record(id, user.id, None, abierto, CreationComment, now);
      NotifyAdmins(Some(id), "creacion", CreateTitle(id), CreateMessage(user.email, titulo), now);
    }

    /** The requester's form once the "Abierto" status `abierto` is known: a GET does
        nothing, a missing title, description or area is refused, an area id naming no row
        is refused, and anything else creates the ticket. */
    twostate predicate SubmitEffect(user: Usuario, isPost: bool, titulo: string, descripcion: string,
                                    area: Option<nat>, archivo: Option<string>, abierto: nat, now: int, out: Outcome)
      reads this, dir, inbox
    {
      if !isPost || titulo == [] || descripcion == [] || area.None? || area.value !in old(areas) then
        && out == (if !isPost then NoAction else if area.Some? && titulo != [] && descripcion != [] then InvalidReference else MissingFields)
        && tickets == old(tickets) && historial == old(historial) && inbox.rows == old(inbox.rows)
      else out.Created? && CreateEffect(user, titulo, descripcion, area.value, archivo, abierto, now, out.ticket)
    }

    method SubmitTicket(user: Usuario, isPost: bool, titulo: string, descripcion: string,
                        area: Option<nat>, archivo: Option<string>, abierto: nat, now: int) returns (out: Outcome)
      requires Valid() && FindEstado(estados, abierto).Some?
      modifies this`tickets, this`nextTicketId, this`historial, this`nextHistorialId, inbox
      ensures Valid()
      ensures SubmitEffect(user, isPost, titulo, descripcion, area, archivo, abierto, now, out)
    {
      if !isPost {
        return NoAction;
      }
      if titulo == [] || descripcion == [] || area.None? {
        return MissingFields;
      }
      if area.value !in areas {
        return InvalidReference;
      }
      var id := CreateTicket(user, titulo, descripcion, area.value, archivo, abierto, now);
      out := Created(id);
    }

    /** `ticket_usuario_crear`. The "Abierto" status is fetched or created on every request
        that passes the role check, before the form is looked at. A POST with a title, a
        description and an existing area creates the ticket in that status. */
    method RequesterCreate(user: Usuario, isPost: bool, titulo: string, descripcion: string,
                           area: Option<nat>, archivo: Option<string>, now: int) returns (out: Outcome)
      requires Valid()
      modifies this`estados, this`nextEstadoId, this`tickets, this`nextTicketId, this`historial, this`nextHistorialId, inbox
      ensures Valid()
      ensures !RequireRole(Authenticated(user), "USUARIO") ==> out == Forbidden && unchanged(this, inbox)
      ensures RequireRole(Authenticated(user), "USUARIO") ==>
                && estados == GetOrCreateAbierto(old(estados), old(nextEstadoId)).0
                && SubmitEffect(user, isPost, titulo, descripcion, area, archivo,
                                GetOrCreateAbierto(old(estados), old(nextEstadoId)).1.id, now, out)
    {
      if !RequireRole(Authenticated(user), "USUARIO") {
        return Forbidden;
      }
      var abierto := OpenStatus();
      out := SubmitTicket(user, isPost, titulo, descripcion, area, archivo, abierto.id, now);
    }

    // --- ticket_usuario_detalle (requester) -------------------------------------------

    /** A rating submission: no score is no action; otherwise the rating is created unless
        the ticket already has one, and a negative score is refused. Nothing else changes. */
    twostate predicate RateEffect(user: nat, ticketId: nat, f: RequesterForm, now: int, out: Outcome)
      reads this, inbox
    {
      if f.puntuacion.None? then out == NoAction && unchanged(this, inbox)
      else
        var r := Rate(old(calificaciones), ticketId, user, f.puntuacion.value, f.resuelto, f.comentarioCsat, now);
        if r.None? then out == RatingRejected && unchanged(this, inbox)
        else && out == Rated(ticketId !in old(calificaciones)) && calificaciones == r.value
             && comentarios == old(comentarios) && inbox.rows == old(inbox.rows)
    }

    /** Stores the rating table as `get_or_create` leaves it. */
    method SaveRatings(cal: map<nat, Calificacion>)
      requires Valid()
      requires forall id :: id in cal ==> cal[id].ticket == id && id in tickets
      modifies this`calificaciones
      ensures Valid()
      ensures calificaciones == cal
    {
      calificaciones := cal;
    }

    method RequesterRate(user: nat, ticketId: nat, f: RequesterForm, now: int) returns (out: Outcome)
      requires Valid() && ticketId in tickets
      modifies this`calificaciones
      ensures Valid()
      ensures RateEffect(user, ticketId, f, now, out)
    {
      if f.puntuacion.None? {
        return NoAction;
      }
      var r := Rate(calificaciones, ticketId, user, f.puntuacion.value, f.resuelto, f.comentarioCsat, now);
      if r.None? {
        return RatingRejected;
      }
      RateKeyed(calificaciones, ticketId, user, f.puntuacion.value, f.resuelto, f.comentarioCsat, now);
      out := Rated(ticketId !in calificaciones);
      SaveRatings(r.value);
    }

    /** What the requester's POST does to a ticket of their own: a non-blank comment is
        stored and the active assignee (if any) notified; otherwise the rating form. */
    twostate predicate RequesterTicketEffect(user: Usuario, ticketId: nat, f: RequesterForm, now: int, out: Outcome)
      reads this, dir, inbox
    {
      if IsComment(f.comentarioTexto) then
        && out == CommentAdded
        && CommentEffect(ticketId, user.id, Strip(f.comentarioTexto.value), f.archivo, old(AssigneeUser(ticketId)),
                         RequesterCommentMessage(user, Strip(f.comentarioTexto.value)), now)
        && calificaciones == old(calificaciones)
      else RateEffect(user.id, ticketId, f, now, out)
    }

    method RequesterOnTicket(user: Usuario, ticketId: nat, f: RequesterForm, now: int) returns (out: Outcome)
      requires Valid() && ticketId in tickets
      modifies this`comentarios, this`nextComentarioId, this`calificaciones, inbox
      ensures Valid()
      ensures RequesterTicketEffect(user, ticketId, f, now, out)
    {
      if IsComment(f.comentarioTexto) {
        var texto := Strip(f.comentarioTexto.value);
        CommentAndNotify(ticketId, user.id, texto, f.archivo, AssigneeUser(ticketId), RequesterCommentMessage(user, texto), now);
        return CommentAdded;
      }
      out := RequesterRate(user.id, ticketId, f, now);
    }

    /** The POST branches of `ticket_usuario_detalle`: only the ticket's requester reaches
        the ticket; anyone else gets a 404. */
    method RequesterPost(user: Usuario, ticketId: nat, f: RequesterForm, now: int) returns (out: Outcome)
      requires Valid()
      modifies this`comentarios, this`nextComentarioId, this`calificaciones, inbox
      ensures Valid()
      ensures !RequireRole(Authenticated(user), "USUARIO") ==> out == Forbidden && unchanged(this, inbox)
      ensures RequireRole(Authenticated(user), "USUARIO") && !(ticketId in tickets && tickets[ticketId].solicitante == user.id) ==>
                out == NotFound && unchanged(this, inbox)
      ensures RequireRole(Authenticated(user), "USUARIO") && ticketId in tickets && tickets[ticketId].solicitante == user.id ==>
                RequesterTicketEffect(user, ticketId, f, now, out)
    {
      if !RequireRole(Authenticated(user), "USUARIO") {
        return Forbidden;
      }
      if !(ticketId in tickets && tickets[ticketId].solicitante == user.id) {
        return NotFound;
      }
      out := RequesterOnTicket(user, ticketId, f, now);
    }

    // --- recuperar_contrasena ---------------------------------------------------------

    /** `recuperar_contrasena`'s POST: the e-mail is stripped and lower-cased; a registered
        non-administrator gets a `recuperacion_password` notice sent to every administrator.
        An unknown e-mail gets the same answer and no notice. */
    method RecoverPassword(rawEmail: string, now: int) returns (out: RecoveryOutcome)
      requires Valid()
      modifies inbox
      ensures Valid()
      ensures var email := Lower(Strip(rawEmail));
        && (email == [] ==> out == EmptyEmail && unchanged(inbox))
        && (email != [] && dir.UserByEmail(email).None? ==> out == RequestAccepted && unchanged(inbox))
        && (email != [] && dir.UserByEmail(email).Some? ==>
              var u := dir.UserByEmail(email).value;
              if HasRoleIgnoringCase(u, "ADMIN") then out == AdminMustContactIT && unchanged(inbox)
              else out == RequestAccepted
                   && inbox.rows == old(inbox.rows) + Fanout(Admins(dir.usuarios), old(inbox.nextId), None,
                                                            "recuperacion_password", RecoveryTitle, RecoveryMessage(u), now))
    {
      var email := Lower(Strip(rawEmail));
      if email == [] {
        return EmptyEmail;
      }
      var found := dir.UserByEmail(email);
      if found.None? {
        return RequestAccepted;
      }
      var u := found.value;
      if HasRoleIgnoringCase(u, "ADMIN") {
        return AdminMustContactIT;
      }
      NotifyAdmins(None, "recuperacion_password", RecoveryTitle, RecoveryMessage(u), now);
      out := RequestAccepted;
    }

    // --- usuarios_editar --------------------------------------------------------------

    /** `usuarios_editar`'s POST: the form's e-mail, names and role id are written into the
        stored user, a non-blank new password shorter than 8 characters refuses the whole
        edit, and the user is saved (which runs the profile signal). A name the form leaves
        out is a null, and the save then fails like one with a taken e-mail or a role id
        that names no row: nothing is written. */
    method EditUser(admin: Usuario, uid: nat, email: string, firstName: Option<string>, lastName: Option<string>,
                    rolId: nat, nuevaPassword: string) returns (out: EditOutcome)
      requires Valid()
      modifies dir
      ensures Valid()
      ensures !RequireRole(Authenticated(admin), "ADMIN") ==> out == EditForbidden && unchanged(dir)
      ensures RequireRole(Authenticated(admin), "ADMIN") && FindUser(old(dir.usuarios), uid).None? ==>
                out == UserNotFound && unchanged(dir)
      ensures RequireRole(Authenticated(admin), "ADMIN") && FindUser(old(dir.usuarios), uid).Some?
              && AdminPasswordChange(nuevaPassword) == RejectShort ==>
                out == PasswordTooShort && unchanged(dir)
      ensures RequireRole(Authenticated(admin), "ADMIN") && FindUser(old(dir.usuarios), uid).Some?
              && AdminPasswordChange(nuevaPassword) != RejectShort ==>
                && (firstName.None? || lastName.None? ==> out == NameMissing)
                && (firstName.Some? && lastName.Some? && EmailClash(old(dir.usuarios), email, uid) ==> out == EmailTaken)
                && ((firstName.Some? && lastName.Some? && !EmailClash(old(dir.usuarios), email, uid)
                     && FindRol(old(dir.roles), rolId).None?) ==> out == UnknownRole)
                && (!out.UserSaved? ==> unchanged(dir))
                && ((firstName.Some? && lastName.Some? && !EmailClash(old(dir.usuarios), email, uid)
                     && FindRol(old(dir.roles), rolId).Some?) ==>
                      var u := FindUser(old(dir.usuarios), uid).value.(email := email, firstName := firstName.value,
                                                                       lastName := lastName.value,
                                                                       rol := FindRol(old(dir.roles), rolId));
                      && out == UserSaved(AdminPasswordChange(nuevaPassword).SetPassword?)
                      && dir.usuarios == UpsertUser(old(dir.usuarios), u)
                      && dir.tecnicos == SignalEffect(old(dir.tecnicos), u, old(dir.nextTecnicoId))
                      && dir.roles == old(dir.roles))
    {
      if !RequireRole(Authenticated(admin), "ADMIN") {
        return EditForbidden;
      }
      var found := FindUser(dir.usuarios, uid);
      if found.None? {
        return UserNotFound;
      }
      var pw := AdminPasswordChange(nuevaPassword);
      if pw == RejectShort {
        return PasswordTooShort;
      }
      if firstName.None? || lastName.None? {
        return NameMissing;
      }
      var rol := FindRol(dir.roles, rolId);
      if rol.None? {
        if EmailClash(dir.usuarios, email, uid) {
          return EmailTaken;
        }
        return UnknownRole;
      }
      var u := found.value.(email := email, firstName := firstName.value, lastName := lastName.value, rol := rol);
      var ok := dir.Save(u);
      if !ok {
        return EmailTaken;
      }
      out := UserSaved(pw.SetPassword?);
    }
  }
}
