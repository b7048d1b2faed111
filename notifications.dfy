/** The notification inbox: the Notificacion record (notifications/models.py), the three
    inbox operations of notifications/views.py, and the unread summary that
    notifications/context_processors.py adds to every page. */
module Notifications {
  import opened Text
  import opened Roles

  /** A Notificacion row; `ticket` is nullable, `canal` defaults to "portal". */
  datatype Notificacion = Notificacion(id: nat, ticket: Option<nat>, destino: nat, tipo: string,
                                       titulo: string, mensaje: string, fecha: int,
                                       leida: bool, canal: string)

  const Portal: string := "portal"

  predicate UnreadOf(n: Notificacion, user: nat) {
    n.destino == user && !n.leida
  }

  /** Rows whose ids grow from first to last, all below `bound`: the ids the table has
      handed out, which makes every row's id distinct. */
  predicate IdsIncreasing(s: seq<Notificacion>, bound: nat) {
    && (forall i, j :: 0 <= i < j < |s| ==> s[i].id < s[j].id)
    && (forall i :: 0 <= i < |s| ==> s[i].id < bound)
  }

  /** Number of unread notifications of `user`. */
  function CountUnread(s: seq<Notificacion>, user: nat): nat {
    if s == [] then 0
    else CountUnread(s[..|s| - 1], user) + (if UnreadOf(s[|s| - 1], user) then 1 else 0)
  }

  /** Number of notifications addressed to `user`. */
  function CountOwned(s: seq<Notificacion>, user: nat): nat {
    if s == [] then 0
    else CountOwned(s[..|s| - 1], user) + (if s[|s| - 1].destino == user then 1 else 0)
  }

  /** The table after `notif.leida = True; notif.save()` on the notification `id`
      of `user`, if there is one. */
  function MarkOneRead(s: seq<Notificacion>, id: nat, user: nat): (r: seq<Notificacion>)
    ensures |r| == |s|
    ensures forall i :: 0 <= i < |s| ==>
              r[i] == if s[i].id == id && s[i].destino == user then s[i].(leida := true) else s[i]
  {
    seq(|s|, i requires 0 <= i < |s| =>
      if s[i].id == id && s[i].destino == user then s[i].(leida := true) else s[i])
  }

  /** The table after `filter(usuario_destino=user, leida=False).update(leida=True)`. */
  function MarkAllReadOf(s: seq<Notificacion>, user: nat): (r: seq<Notificacion>)
    ensures |r| == |s|
    ensures forall i :: 0 <= i < |s| ==>
              r[i] == if UnreadOf(s[i], user) then s[i].(leida := true) else s[i]
  {
    seq(|s|, i requires 0 <= i < |s| => if UnreadOf(s[i], user) then s[i].(leida := true) else s[i])
  }

  /** The table after `filter(usuario_destino=user).delete()`, order kept. */
  function WithoutUser(s: seq<Notificacion>, user: nat): (r: seq<Notificacion>)
    ensures forall n :: n in r <==> n in s && n.destino != user
    ensures |r| + CountOwned(s, user) == |s|
  {
    if s == [] then []
    else
      var init := WithoutUser(s[..|s| - 1], user);
      var last := s[|s| - 1];
      assert forall n :: n in s <==> n in s[..|s| - 1] || n == last;
      if last.destino != user then init + [last] else init
  }

  /** The unread notifications of `user`, in table order. */
  function UnreadList(s: seq<Notificacion>, user: nat): (r: seq<Notificacion>)
    ensures forall n :: n in r <==> n in s && UnreadOf(n, user)
    ensures |r| == CountUnread(s, user)
  {
    if s == [] then []
    else
      var init := UnreadList(s[..|s| - 1], user);
      var last := s[|s| - 1];
      assert forall n :: n in s <==> n in s[..|s| - 1] || n == last;
      if UnreadOf(last, user) then init + [last] else init
  }

  /** Ordered by `-fecha_envio`: newest first. */
  predicate NewestFirst(s: seq<Notificacion>) {
    forall i, j :: 0 <= i < j < |s| ==> s[i].fecha >= s[j].fecha
  }

  function Insert(n: Notificacion, s: seq<Notificacion>): (r: seq<Notificacion>)
    requires NewestFirst(s)
    ensures NewestFirst(r)
    ensures multiset(r) == multiset(s) + multiset{n}
    ensures |r| == |s| + 1
    ensures r[0] == n || (s != [] && r[0] == s[0])
  {
    if s == [] then [n]
    else if n.fecha >= s[0].fecha then [n] + s
    else
      var t := Insert(n, s[1..]);
      assert s == [s[0]] + s[1..];
      [s[0]] + t
  }

  /** `order_by("-fecha_envio")`: a newest-first arrangement of the same rows (rows with
      equal timestamps may come in any order, as in the database). */
  function SortNewestFirst(s: seq<Notificacion>): (r: seq<Notificacion>)
    ensures NewestFirst(r)
    ensures multiset(r) == multiset(s)
  {
    if s == [] then []
    else
      assert s == [s[0]] + s[1..];
      Insert(s[0], SortNewestFirst(s[1..]))
  }

  /** The two context entries: `notificaciones_no_leidas` and its count. */
  datatype UnreadSummary = UnreadSummary(noLeidas: seq<Notificacion>, total: nat)

  /** `notificaciones_context`: nothing for an anonymous visitor; otherwise exactly the
      visitor's unread notifications, newest first, with their number. */
  function UnreadContext(p: Principal, rows: seq<Notificacion>): (r: Option<UnreadSummary>)
    ensures r.None? <==> p.Anonymous?
    ensures r.Some? ==> NewestFirst(r.value.noLeidas)
    ensures r.Some? ==> forall n :: n in r.value.noLeidas <==> n in rows && UnreadOf(n, p.user.id)
    ensures r.Some? ==> r.value.total == |r.value.noLeidas| == CountUnread(rows, p.user.id)
  {
    if p.Anonymous? then None
    else
      var unread := UnreadList(rows, p.user.id);
      var qs := SortNewestFirst(unread);
      assert forall n :: n in qs <==> n in multiset(qs);
      assert forall n :: n in unread <==> n in multiset(unread);
      assert |qs| == |multiset(qs)| == |multiset(unread)| == |unread|;
      Some(UnreadSummary(qs, |qs|))
  }

  /** With no unread notification left, the unread count is zero. */
  lemma {:induction false} NoUnreadCountZero(s: seq<Notificacion>, user: nat)
    requires forall i :: 0 <= i < |s| ==> !UnreadOf(s[i], user)
    ensures CountUnread(s, user) == 0
  {
    if s != [] { NoUnreadCountZero(s[..|s| - 1], user); }
  }

  /** Marking all read is idempotent: a second call finds nothing unread (reports 0) and
      leaves the table as the first call left it. */
  lemma MarkAllReadIdempotent(s: seq<Notificacion>, user: nat)
    ensures CountUnread(MarkAllReadOf(s, user), user) == 0
    ensures MarkAllReadOf(MarkAllReadOf(s, user), user) == MarkAllReadOf(s, user)
  {
    NoUnreadCountZero(MarkAllReadOf(s, user), user);
  }

  /** Another user's notifications and unread count are untouched by `user`'s mark-all. */
  lemma {:induction false} MarkAllReadKeepsOthers(s: seq<Notificacion>, user: nat, other: nat)
    requires other != user
    ensures CountUnread(MarkAllReadOf(s, user), other) == CountUnread(s, other)
  {
    if s != [] {
      var m := MarkAllReadOf(s, user);
      assert m[..|m| - 1] == MarkAllReadOf(s[..|s| - 1], user);
      MarkAllReadKeepsOthers(s[..|s| - 1], user, other);
    }
  }

  /** Deleting a user's notifications leaves every other user's rows, unread count included. */
  lemma {:induction false} DeleteKeepsOthers(s: seq<Notificacion>, user: nat, other: nat)
    requires other != user
    ensures CountUnread(WithoutUser(s, user), other) == CountUnread(s, other)
    ensures CountOwned(WithoutUser(s, user), user) == 0
  {
    if s != [] {
      var init := s[..|s| - 1];
      var last := s[|s| - 1];
      DeleteKeepsOthers(init, user, other);
      if last.destino != user {
        var w := WithoutUser(init, user) + [last];
        assert w[..|w| - 1] == WithoutUser(init, user);
      }
    }
  }

  lemma {:induction false} WithoutUserIdsIncreasing(s: seq<Notificacion>, user: nat, bound: nat)
    requires IdsIncreasing(s, bound)
    ensures IdsIncreasing(WithoutUser(s, user), bound)
  {
    if s != [] {
      var init := s[..|s| - 1];
      var last := s[|s| - 1];
      assert IdsIncreasing(init, bound);
      WithoutUserIdsIncreasing(init, user, bound);
      var w := WithoutUser(init, user);
      if last.destino != user {
        forall k | 0 <= k < |w| ensures w[k].id < last.id {
          assert w[k] in init;
          var m :| 0 <= m < |init| && init[m] == w[k];
        }
        AppendIdsIncreasing(w, last, bound);
      }
    }
  }

  lemma AppendIdsIncreasing(w: seq<Notificacion>, last: Notificacion, bound: nat)
    requires IdsIncreasing(w, bound) && last.id < bound
    requires forall k :: 0 <= k < |w| ==> w[k].id < last.id
    ensures IdsIncreasing(w + [last], bound)
  {
  }

  /** The notification table. Rows are kept in creation order. */
  class NotificationTable {
    var rows: seq<Notificacion>
    var nextId: nat

    ghost predicate Valid()
      reads this
    {
      IdsIncreasing(rows, nextId)
    }

    constructor ()
      ensures Valid() && rows == []
    {
      rows, nextId := [], 0;
    }

    /** `Notificacion.objects.create(...)`: a new unread row stamped with `now`. */
    method Send(ticket: Option<nat>, destino: nat, tipo: string, titulo: string, mensaje: string,
                canal: string, now: int) returns (n: Notificacion)
      requires Valid()
      modifies this
      ensures Valid()
      ensures n == Notificacion(old(nextId), ticket, destino, tipo, titulo, mensaje, now, false, canal)
      ensures rows == old(rows) + [n]
      ensures nextId == old(nextId) + 1
    {
      n := Notificacion(nextId, ticket, destino, tipo, titulo, mensaje, now, false, canal);
      rows := rows + [n];
      nextId := nextId + 1;
    }

    /** `notificacion_marcar_leida`: finds the notification `notifId` among `user`'s own
        (a 404 otherwise) and sets its `leida`; no other row changes. */
    method MarkRead(notifId: nat, user: nat) returns (found: bool)
      requires Valid()
      modifies this
      ensures Valid() && nextId == old(nextId)
      ensures found <==> exists k :: 0 <= k < |old(rows)| && old(rows)[k].id == notifId && old(rows)[k].destino == user
      ensures rows == MarkOneRead(old(rows), notifId, user)
    {
      var i := 0;
      while i < |rows|
        invariant 0 <= i <= |rows|
        invariant forall k :: 0 <= k < i ==> !(rows[k].id == notifId && rows[k].destino == user)
      {
        if rows[i].id == notifId && rows[i].destino == user {
          ghost var before := rows;
          rows := rows[i := rows[i].(leida := true)];
          assert forall k :: 0 <= k < |before| && k != i ==> before[k].id != notifId;
          return true;
        }
        i := i + 1;
      }
      found := false;
    }

    /** `marcar_todas_leidas`: every unread notification of `user` becomes read, and the
        number so updated is returned. */
    method MarkAllRead(user: nat) returns (cantidad: nat)
      requires Valid()
      modifies this
      ensures Valid() && nextId == old(nextId)
      ensures rows == MarkAllReadOf(old(rows), user)
      ensures cantidad == CountUnread(old(rows), user)
    {
      cantidad := 0;
      var i := 0;
      while i < |rows|
        invariant 0 <= i <= |rows| && |rows| == |old(rows)| && nextId == old(nextId)
        invariant forall k :: 0 <= k < i ==>
                    rows[k] == if UnreadOf(old(rows)[k], user) then old(rows)[k].(leida := true) else old(rows)[k]
        invariant forall k :: i <= k < |rows| ==> rows[k] == old(rows)[k]
        invariant cantidad == CountUnread(old(rows)[..i], user)
      {
        assert old(rows)[..i + 1][..i] == old(rows)[..i];
        if UnreadOf(rows[i], user) {
          rows := rows[i := rows[i].(leida := true)];
          cantidad := cantidad + 1;
        }
        i := i + 1;
      }
      assert old(rows)[..i] == old(rows);
      assert forall k :: 0 <= k < |rows| ==> rows[k].id == old(rows)[k].id;
    }

    /** `eliminar_todas_notificaciones`: on POST, deletes exactly `user`'s notifications and
        returns how many there were; any other method only shows the confirmation page. */
    method DeleteAll(user: nat, isPost: bool) returns (cantidad: Option<nat>)
      requires Valid()
      modifies this
      ensures Valid() && nextId == old(nextId)
      ensures !isPost ==> cantidad.None? && rows == old(rows)
      ensures isPost ==> cantidad == Some(CountOwned(old(rows), user)) && rows == WithoutUser(old(rows), user)
    {
      if !isPost {
        return None;
      }
      var s := rows;
      var kept: seq<Notificacion> := [];
      var count := 0;
      var i := 0;
      while i < |s|
        invariant 0 <= i <= |s|
        invariant rows == s && nextId == old(nextId)
        invariant kept == WithoutUser(s[..i], user)
        invariant count == CountOwned(s[..i], user)
      {
        assert s[..i + 1][..i] == s[..i];
        if s[i].destino != user {
          kept := kept + [s[i]];
        } else {
          count := count + 1;
        }
        i := i + 1;
      }
      assert s[..i] == s;
      WithoutUserIdsIncreasing(s, user, nextId);
      rows := kept;
      cantidad := Some(count);
    }
  }
}
