/** Users, their optional role and the technician profile attached to them
    (accounts/models.py), and the post-save hook that creates that profile
    (accounts/signals.py). */
module Accounts {
  import opened Text

  datatype Rol = Rol(id: nat, nombre: string)

  /** A stored user; `rol` is the nullable foreign key to Rol. */
  datatype Usuario = Usuario(id: nat, email: string, firstName: string, lastName: string,
                             rol: Option<Rol>, activo: bool)

  /** The technician profile, linked one-to-one to a Usuario through `usuario`. */
  datatype Tecnico = Tecnico(id: nat, usuario: nat, especialidad: string,
                             nivelExperiencia: string, activo: bool)

  /** `Usuario.__str__`. */
  function Str(u: Usuario): string {
    u.email
  }

  /** `Usuario.get_full_name`: "first last" with surrounding whitespace removed, or the
      e-mail (the `__str__` text) when that is blank. */
  function GetFullName(u: Usuario): (r: string)
    ensures AllSpace(u.firstName + " " + u.lastName) ==> r == Str(u)
    ensures !AllSpace(u.firstName + " " + u.lastName) ==>
              && r != [] && !IsSpace(r[0]) && !IsSpace(r[|r| - 1])
              && var s := u.firstName + " " + u.lastName;
                 exists i, j :: 0 <= i <= j <= |s| && r == s[i..j] && AllSpace(s[..i]) && AllSpace(s[j..])
  {
    var nombre := Strip(u.firstName + " " + u.lastName);
    StripEmptyIff(u.firstName + " " + u.lastName);
    StripEnds(u.firstName + " " + u.lastName);
    StripShape(u.firstName + " " + u.lastName);
    if nombre != [] then nombre else Str(u)
  }

  lemma StripIsInfix(s: string)
    ensures Contains(s, Strip(s))
  {
    var l := TrimLeft(s);
    var r := TrimRight(l);
    TrimLeftShape(s);
    TrimRightShape(l);
    var i := |s| - |l|;
    assert r == s[i..i + |r|];
    assert OccursAt(s, Strip(s), i);
  }

  /** The full name is empty only for a user whose name parts and e-mail are all blank. */
  lemma FullNameEmptyIff(u: Usuario)
    ensures GetFullName(u) == [] <==> AllSpace(u.firstName + " " + u.lastName) && u.email == []
  {
  }

  // ----------------------------------------------------------------------------------
  // The Tecnico table as a sequence of rows, and the get-or-create the signal performs.
  // ----------------------------------------------------------------------------------

  /** At most one profile per user (the OneToOneField) and distinct profile ids. */
  predicate OneProfilePerUser(ts: seq<Tecnico>) {
    forall i, j :: 0 <= i < j < |ts| ==> ts[i].usuario != ts[j].usuario && ts[i].id != ts[j].id
  }

  /** Number of profiles linked to user `uid`. */
  function ProfileCount(ts: seq<Tecnico>, uid: nat): nat {
    if ts == [] then 0
    else ProfileCount(ts[..|ts| - 1], uid) + (if ts[|ts| - 1].usuario == uid then 1 else 0)
  }

  /** Position of the profile of `uid`, if any. */
  function FindProfile(ts: seq<Tecnico>, uid: nat): (r: Option<nat>)
    ensures r.Some? ==> r.value < |ts| && ts[r.value].usuario == uid
    ensures r.None? ==> forall k :: 0 <= k < |ts| ==> ts[k].usuario != uid
  {
    if ts == [] then None
    else if ts[|ts| - 1].usuario == uid then Some(|ts| - 1)
    else FindProfile(ts[..|ts| - 1], uid)
  }

  /** A user with no profile has a count of zero. */
  lemma {:induction false} NoProfileCountZero(ts: seq<Tecnico>, uid: nat)
    requires forall k :: 0 <= k < |ts| ==> ts[k].usuario != uid
    ensures ProfileCount(ts, uid) == 0
  {
    if ts != [] { NoProfileCountZero(ts[..|ts| - 1], uid); }
  }

  /** Under the one-to-one constraint a user with a profile has exactly one. */
  lemma {:induction false} OneProfileCountOne(ts: seq<Tecnico>, uid: nat, k: nat)
    requires OneProfilePerUser(ts)
    requires k < |ts| && ts[k].usuario == uid
    ensures ProfileCount(ts, uid) == 1
  {
    var init := ts[..|ts| - 1];
    if k == |ts| - 1 {
      NoProfileCountZero(init, uid);
    } else {
      OneProfileCountOne(init, uid, k);
    }
  }

  /** `Tecnico.objects.get_or_create(usuario=uid)` on the table `ts`, with `freshId` the id
      the database would hand out: the rows afterwards. */
  function GetOrCreateProfile(ts: seq<Tecnico>, uid: nat, freshId: nat): (r: seq<Tecnico>)
  {
    if FindProfile(ts, uid).Some? then ts
    else ts + [Tecnico(freshId, uid, "", "", true)]
  }

  /** The profile table after `crear_o_actualizar_tecnico` runs for a saved user `u`. */
  function SignalEffect(ts: seq<Tecnico>, u: Usuario, freshId: nat): seq<Tecnico> {
    if u.rol.None? then ts
    else if Upper(u.rol.value.nombre) == "TECNICO" then GetOrCreateProfile(ts, u.id, freshId)
    else ts
  }

  predicate IdsBelow(ts: seq<Tecnico>, bound: nat) {
    forall i :: 0 <= i < |ts| ==> ts[i].id < bound
  }

  /** A saved technician ends with exactly one profile, the table keeps the one-to-one
      constraint, and existing profiles are never removed or altered. */
  lemma SignalEffectForTechnician(ts: seq<Tecnico>, u: Usuario, freshId: nat)
    requires OneProfilePerUser(ts) && IdsBelow(ts, freshId)
    requires u.rol.Some? && Upper(u.rol.value.nombre) == "TECNICO"
    ensures var ts' := SignalEffect(ts, u, freshId);
      OneProfilePerUser(ts') && ProfileCount(ts', u.id) == 1 && ts'[..|ts|] == ts && |ts'| <= |ts| + 1
  {
    var ts' := SignalEffect(ts, u, freshId);
    match FindProfile(ts, u.id)
    case Some(k) =>
      OneProfileCountOne(ts, u.id, k);
    case None =>
      assert ts' == ts + [Tecnico(freshId, u.id, "", "", true)];
      assert ts'[..|ts|] == ts;
      OneProfileCountOne(ts', u.id, |ts|);
  }

  /** A user without a role, or with a role other than TECNICO, leaves the table as it is:
      no profile is created and none is deleted. */
  lemma SignalEffectOtherRoles(ts: seq<Tecnico>, u: Usuario, freshId: nat)
    requires u.rol.None? || Upper(u.rol.value.nombre) != "TECNICO"
    ensures SignalEffect(ts, u, freshId) == ts
  {
  }

  /** Saving the same user again changes nothing: get-or-create finds the profile the
      first save made, whatever id the database would offer next. */
  lemma SignalEffectIdempotent(ts: seq<Tecnico>, u: Usuario, freshId: nat, laterId: nat)
    ensures var once := SignalEffect(ts, u, freshId);
      SignalEffect(once, u, laterId) == once
  {
    var once := SignalEffect(ts, u, freshId);
    if u.rol.Some? && Upper(u.rol.value.nombre) == "TECNICO" && FindProfile(ts, u.id).None? {
      assert once[|once| - 1].usuario == u.id;
    }
  }

  // ----------------------------------------------------------------------------------
  // The user table and the profile table together.
  // ----------------------------------------------------------------------------------

  /** Distinct ids and distinct e-mails (`email` is `unique=True`). */
  predicate UniqueUsers(us: seq<Usuario>) {
    forall i, j :: 0 <= i < j < |us| ==> us[i].id != us[j].id && us[i].email != us[j].email
  }

  /** Another user than `uid` already has the e-mail `email`, which the unique index on
      `email` then refuses. */
  predicate EmailClash(us: seq<Usuario>, email: string, uid: nat) {
    exists k :: 0 <= k < |us| && us[k].email == email && us[k].id != uid
  }

  /** `Rol.objects.get(id=id)` on the role table. */
  function FindRol(rs: seq<Rol>, id: nat): (r: Option<Rol>)
    ensures r.Some? ==> r.value in rs && r.value.id == id
    ensures r.None? ==> forall k :: 0 <= k < |rs| ==> rs[k].id != id
  {
    if rs == [] then None
    else if rs[|rs| - 1].id == id then Some(rs[|rs| - 1])
    else FindRol(rs[..|rs| - 1], id)
  }

  /** Some row of `us` has id `uid`. */
  predicate HasUserIn(us: seq<Usuario>, uid: nat) {
    exists i :: 0 <= i < |us| && us[i].id == uid
  }

  /** Position of the row with id `uid`, or -1. */
  function UserIndex(us: seq<Usuario>, uid: nat): (r: int)
    ensures -1 <= r < |us|
    ensures r >= 0 ==> us[r].id == uid
    ensures r < 0 ==> forall k :: 0 <= k < |us| ==> us[k].id != uid
  {
    if us == [] then -1
    else if us[|us| - 1].id == uid then |us| - 1
    else UserIndex(us[..|us| - 1], uid)
  }

  /** The user table after `u.save()`: an UPDATE of the row with `u`'s id when there is
      one, an INSERT at the end otherwise. */
  function UpsertUser(us: seq<Usuario>, u: Usuario): seq<Usuario> {
    var at := UserIndex(us, u.id);
    if at >= 0 then us[at := u] else us + [u]
  }

  /** The save keeps every stored id, stores `u`, and keeps ids and e-mails unique when no
      other user has `u`'s e-mail. */
  lemma UpsertUserKeeps(us: seq<Usuario>, u: Usuario)
    ensures u in UpsertUser(us, u) && HasUserIn(UpsertUser(us, u), u.id)
    ensures forall uid :: HasUserIn(us, uid) ==> HasUserIn(UpsertUser(us, u), uid)
    ensures |UpsertUser(us, u)| == |us| + (if HasUserIn(us, u.id) then 0 else 1)
    ensures forall i :: 0 <= i < |us| && us[i].id != u.id ==> UpsertUser(us, u)[i] == us[i]
    ensures UniqueUsers(us) && (forall i :: 0 <= i < |us| ==> us[i].email == u.email ==> us[i].id == u.id) ==>
              UniqueUsers(UpsertUser(us, u))
  {
    var r := UpsertUser(us, u);
    var at := UserIndex(us, u.id);
    var pos := if at >= 0 then at else |us|;
    assert r[pos] == u;
    forall uid | HasUserIn(us, uid) ensures HasUserIn(r, uid) {
      var m :| 0 <= m < |us| && us[m].id == uid;
      assert r[m].id == uid;
    }
  }

  class Directory {
    var usuarios: seq<Usuario>
    var tecnicos: seq<Tecnico>
    var nextTecnicoId: nat
    /** The Rol table, which the modelled views only read. */
    var roles: seq<Rol>

    ghost predicate Valid()
      reads this
    {
      && UniqueUsers(usuarios)
      && OneProfilePerUser(tecnicos)
      && IdsBelow(tecnicos, nextTecnicoId)
      && (forall i :: 0 <= i < |tecnicos| ==> HasUser(tecnicos[i].usuario))
      && (forall i :: 0 <= i < |usuarios| ==> RolStored(usuarios[i].rol))
    }

    /** The role foreign key is null or names a row of the Rol table. */
    predicate RolStored(r: Option<Rol>)
      reads this
    {
      r.None? || r.value in roles
    }

    predicate HasUser(uid: nat)
      reads this
    {
      HasUserIn(usuarios, uid)
    }

    /** The profile with id `tid`, as `Tecnico.objects.get(id=tid)` finds it. */
    function TecnicoById(tid: nat): (r: Option<Tecnico>)
      reads this
      ensures r.Some? ==> r.value in tecnicos && r.value.id == tid
      ensures r.None? ==> forall i :: 0 <= i < |tecnicos| ==> tecnicos[i].id != tid
    {
      FindTecnico(tecnicos, tid)
    }

    /** The user with e-mail `email`; under Valid() there is never more than one. */
    function UserByEmail(email: string): (r: Option<Usuario>)
      reads this
      ensures r.Some? ==> r.value in usuarios && r.value.email == email
      ensures r.None? ==> forall i :: 0 <= i < |usuarios| ==> usuarios[i].email != email
    {
      FindByEmail(usuarios, email)
    }

    constructor (roles: seq<Rol>)
      ensures Valid() && usuarios == [] && tecnicos == [] && this.roles == roles
    {
      usuarios, tecnicos, nextTecnicoId := [], [], 0;
      this.roles := roles;
    }

    /** `Tecnico.objects.get_or_create(usuario=...)` for user `uid`; the views call it for a
        technician who has no profile yet, and the signal on every save of a technician. */
    method EnsureProfile(uid: nat) returns (t: Tecnico, created: bool)
      requires Valid() && HasUser(uid)
      modifies this`tecnicos, this`nextTecnicoId
      ensures Valid()
      ensures usuarios == old(usuarios)
      ensures tecnicos == GetOrCreateProfile(old(tecnicos), uid, old(nextTecnicoId))
      ensures created <==> FindProfile(old(tecnicos), uid).None?
      ensures t in tecnicos && t.usuario == uid
    {
      var i := 0;
      while i < |tecnicos|
        invariant 0 <= i <= |tecnicos|
        invariant forall k :: 0 <= k < i ==> tecnicos[k].usuario != uid
      {
        if tecnicos[i].usuario == uid {
          FindProfileUnique(tecnicos, uid, i);
          return tecnicos[i], false;
        }
        i := i + 1;
      }
      t := Tecnico(nextTecnicoId, uid, "", "", true);
      tecnicos := tecnicos + [t];
      nextTecnicoId := nextTecnicoId + 1;
      created := true;
    }

    /** `crear_o_actualizar_tecnico`, the post_save receiver, for the saved user `u`.
        `created` is the signal's flag; both of its branches do the same get-or-create. */
    method OnUsuarioSaved(u: Usuario, created: bool)
      requires Valid() && HasUser(u.id)
      modifies this`tecnicos, this`nextTecnicoId
      ensures Valid()
      ensures usuarios == old(usuarios)
      ensures tecnicos == SignalEffect(old(tecnicos), u, old(nextTecnicoId))
    {
      if u.rol.None? {
        return;
      }
      var rolNombre := Upper(u.rol.value.nombre);
      if rolNombre == "TECNICO" {
        if created {
          var _, _ := EnsureProfile(u.id);
        } else {
          var _, _ := EnsureProfile(u.id);
        }
      }
    }

    /** `usuario.save()`: writes the row (an update when the id is stored, an insert
        otherwise) unless another user already has the e-mail, which the unique index
        refuses; then the post_save receiver runs. The role `u` carries is a row of the
        Rol table (the caller looks it up by id). */
    method Save(u: Usuario) returns (ok: bool)
      requires Valid() && RolStored(u.rol)
      modifies this`usuarios, this`tecnicos, this`nextTecnicoId
      ensures Valid()
      ensures ok <==> !EmailClash(old(usuarios), u.email, u.id)
      ensures !ok ==> unchanged(this)
      ensures ok ==> usuarios == UpsertUser(old(usuarios), u) && u in usuarios && HasUser(u.id)
      ensures ok ==> tecnicos == SignalEffect(old(tecnicos), u, old(nextTecnicoId))
    {
      var i := 0;
      var at := -1;
      while i < |usuarios|
        invariant 0 <= i <= |usuarios|
        invariant forall k :: 0 <= k < i ==> usuarios[k].email == u.email ==> usuarios[k].id == u.id
        invariant -1 <= at < i
        invariant at >= 0 ==> usuarios[at].id == u.id
        invariant at < 0 ==> forall k :: 0 <= k < i ==> usuarios[k].id != u.id
      {
        if usuarios[i].email == u.email && usuarios[i].id != u.id {
          return false;
        }
        if usuarios[i].id == u.id {
          at := i;
        }
        i := i + 1;
      }
      assert at == UserIndex(usuarios, u.id);
      ghost var before := usuarios;
      UpsertUserKeeps(before, u);
      if at >= 0 {
        usuarios := usuarios[at := u];
      } else {
        usuarios := usuarios + [u];
      }
      assert usuarios == UpsertUser(before, u);
      assert forall k :: 0 <= k < |tecnicos| ==> HasUserIn(before, tecnicos[k].usuario);
      ok := true;
      OnUsuarioSaved(u, at < 0);
    }
  }

  /** Profiles are never removed: an id the table had is still found after a get-or-create,
      and so after the signal, which does a get-or-create or nothing. */
  lemma ProfilesKept(ts: seq<Tecnico>, uid: nat, freshId: nat, tid: nat)
    requires FindTecnico(ts, tid).Some?
    ensures FindTecnico(GetOrCreateProfile(ts, uid, freshId), tid).Some?
  {
    var r := GetOrCreateProfile(ts, uid, freshId);
    if r != ts { assert r[..|r| - 1] == ts; }
  }

  /** Under the one-to-one constraint the profile found is the only one of its user. */
  lemma FindProfileUnique(ts: seq<Tecnico>, uid: nat, i: nat)
    requires OneProfilePerUser(ts)
    requires i < |ts| && ts[i].usuario == uid
    ensures FindProfile(ts, uid) == Some(i)
  {
  }

  function FindTecnico(ts: seq<Tecnico>, tid: nat): (r: Option<Tecnico>)
    ensures r.Some? ==> r.value in ts && r.value.id == tid
    ensures r.None? ==> forall i :: 0 <= i < |ts| ==> ts[i].id != tid
  {
    if ts == [] then None
    else if ts[|ts| - 1].id == tid then Some(ts[|ts| - 1])
    else
      var r := FindTecnico(ts[..|ts| - 1], tid);
      assert r.Some? ==> r.value in ts[..|ts| - 1];
      r
  }

  function FindByEmail(us: seq<Usuario>, email: string): (r: Option<Usuario>)
    ensures r.Some? ==> r.value in us && r.value.email == email
    ensures r.None? ==> forall i :: 0 <= i < |us| ==> us[i].email != email
  {
    if us == [] then None
    else if us[|us| - 1].email == email then Some(us[|us| - 1])
    else
      var r := FindByEmail(us[..|us| - 1], email);
      assert r.Some? ==> r.value in us[..|us| - 1];
      r
  }
}
