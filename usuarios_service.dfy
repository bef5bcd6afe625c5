/** UsuarioService: the user rows behind a Firebase account. It provisions
    or refreshes a user from the Firebase profile, picks a free username,
    lets the user change it under a fixed format, records the online/offline
    state, and resolves an e-mail from a username or a phone number. */
module Usuarios {
  import opened Wrappers
  import opened Js
  import opened Store

  datatype EstadoCuenta = Online | Offline

  function EstadoText(e: EstadoCuenta): string {
    match e
    case Online => "online"
    case Offline => "offline"
  }

  /** The profile fields `syncFromFirebase` reads. */
  datatype SyncDto = SyncDto(
    email: string,
    name: string,
    apellido: Option<string>,
    usuario: Option<string>,
    cedula: Option<string>,
    celular: Option<string>)

  /** What `syncFromFirebase` answers besides `ok: true`. */
  datatype Synced = Synced(id: int, usuario: string)

  const InvalidUsername := BadRequest("Username inválido. Usa 3–20 letras/números/._-")
  const UsernameTaken := BadRequest("Ese usuario ya está en uso")

  /** The names `setUsername` refuses. */
  predicate Reserved(s: string) {
    s == "admin" || s == "root" || s == "support"
  }

  // ---------------------------------------------------------------------
  // Usernames
  // ---------------------------------------------------------------------

  /** The class `[a-z0-9_.-]`. */
  predicate UsernameChar(c: char) {
    IsLowerAscii(c) || IsDigit(c) || c == '_' || c == '.' || c == '-'
  }

  /** `/^[a-z0-9_.-]{3,20}$/` */
  predicate UsernameFormat(s: string) {
    3 <= |s| <= 20 && forall i :: 0 <= i < |s| ==> UsernameChar(s[i])
  }

  /** `replace(/[^a-z0-9_.-]/g, '')` */
  function KeepUsernameChars(s: string): (r: string)
    ensures forall i :: 0 <= i < |r| ==> UsernameChar(r[i])
    ensures |r| <= |s|
  {
    if s == [] then []
    else if UsernameChar(s[0]) then [s[0]] + KeepUsernameChars(s[1..])
    else KeepUsernameChars(s[1..])
  }

  lemma {:induction false} KeepUsernameCharsAll(s: string)
    requires forall i :: 0 <= i < |s| ==> UsernameChar(s[i])
    ensures KeepUsernameChars(s) == s
  {
    if s != [] {
      KeepUsernameCharsAll(s[1..]);
    }
  }

  /** The seed of `ensureUsername`: the lower-cased base stripped to the
      username class when that leaves 3 to 20 characters, else "user". */
  function Seed(raw: string): (r: string)
    ensures UsernameFormat(r)
  {
    var base := KeepUsernameChars(ToLower(raw));
    if 3 <= |base| <= 20 then base else "user"
  }

  function ByUsuario(name: string): Usuario -> bool {
    (x: Usuario) => x.usuario == name
  }

  function ByUid(uid: string): Usuario -> bool {
    (x: Usuario) => x.firebaseUid == Some(uid)
  }

  function ByCelular(c: string): Usuario -> bool {
    (x: Usuario) => x.celular == Some(c)
  }

  /** Some user already has this username (user ids being the
      autoincrement keys below the counter). */
  predicate Taken(d: Db, name: string) {
    exists k :: 1 <= k < d.nextUserId && k in d.users && d.users[k].usuario == name
  }

  /** The i-th candidate after the seed: `${seed}${i}`. */
  function Candidate(seed: string, i: nat): string {
    seed + NatToString(i)
  }

  /** The first index in `i..999` whose candidate is free. */
  function FirstFreeFrom(d: Db, seed: string, i: nat): (r: Option<nat>)
    ensures r.Some? ==> i <= r.value <= 999 && !Taken(d, Candidate(seed, r.value))
    ensures r.Some? ==> forall j :: i <= j < r.value ==> Taken(d, Candidate(seed, j))
    ensures r.None? ==> forall j :: i <= j <= 999 ==> Taken(d, Candidate(seed, j))
    decreases 1000 - i
  {
    if i > 999 then None
    else if !Taken(d, Candidate(seed, i)) then Some(i)
    else FirstFreeFrom(d, seed, i + 1)
  }

  /** `ensureUsername(baseRaw)`, `Date.now().toString(36)` being the
      parameter `stamp`: the seed if free, else the first free of seed1 ..
      seed999, else an unchecked seed-stamp name. */
  function EnsureUsernameSpec(d: Db, raw: string, stamp: string): string {
    var seed := Seed(raw);
    if !Taken(d, seed) then seed
    else
      match FirstFreeFrom(d, seed, 1)
      case Some(i) => Candidate(seed, i)
      case None => seed + "-" + stamp
  }

  /** `(desired || '').toLowerCase().trim()` */
  function CleanUsername(desired: string): string {
    Trim(ToLower(desired))
  }

  /** `setUsername(uid, desired)`: format and reserved names, then
      uniqueness, then the update by firebase_uid. */
  function SetUsernameSpec(d: Db, uid: string, desired: string): (o: Outcome<string>)
    ensures o.result.Err? ==> o.db == d
  {
    var clean := CleanUsername(desired);
    if !UsernameFormat(clean) || Reserved(clean) then Outcome(Err(InvalidUsername), d)
    else if Taken(d, clean) then Outcome(Err(UsernameTaken), d)
    else Renamed(d, FindUser(d, ByUid(uid)), clean)
  }

  /** The update by firebase_uid of the row found, if any. */
  function Renamed(d: Db, found: Option<int>, name: string): (o: Outcome<string>)
    requires found.Some? ==> found.value in d.users
    ensures o.result.Err? ==> o.db == d
  {
    match found
    case None => Outcome(Err(RecordNotFound), d)
    case Some(id) => Outcome(Ok(name), d.(users := d.users[id := d.users[id].(usuario := name)]))
  }

  /** `updateEstadoCuenta(uid, estado)`: the state is written, and the last
      login time only when going online; a missing user is ignored. */
  function UpdateEstadoCuentaSpec(d: Db, uid: string, estado: EstadoCuenta, now: int): Db {
    match FindUser(d, ByUid(uid))
    case None => d
    case Some(id) =>
      var u := d.users[id];
      var fecha := if estado == Online then Some(now) else u.fechaUltimoIngreso;
      d.(users := d.users[id := u.(estadoCuenta := EstadoText(estado), fechaUltimoIngreso := fecha)])
  }

  /** The correo of the row a lookup found, or null. */
  function CorreoOf(d: Db, found: Option<int>): Option<string>
    requires found.Some? ==> found.value in d.users
  {
    match found
    case None => None
    case Some(id) => Some(d.users[id].correo)
  }

  /** `getEmailByUsername(usuario)` */
  function EmailByUsernameSpec(d: Db, usuario: string): Option<string> {
    CorreoOf(d, FindUser(d, ByUsuario(ToLower(Trim(usuario)))))
  }

  /** `getEmailByCelular(celular)` */
  function EmailByCelularSpec(d: Db, celular: string): Option<string> {
    var c := Trim(celular);
    if c == "" then None else CorreoOf(d, FindUser(d, ByCelular(c)))
  }

  // ---------------------------------------------------------------------
  // syncFromFirebase
  // ---------------------------------------------------------------------

  /** `email.split('@')[0]` */
  function LocalPart(email: string): (r: string)
    ensures StartsWith(email, r) && '@' !in r
  {
    if '@' in email then email[..IndexOf(email, '@')] else email
  }

  /** `dto.email.trim().toLowerCase()` */
  function SyncEmail(dto: SyncDto): string {
    ToLower(Trim(dto.email))
  }

  /** `(email.split('@')[0] || uid).toLowerCase()` */
  function BaseUsername(uid: string, email: string): string {
    ToLower(if LocalPart(email) != "" then LocalPart(email) else uid)
  }

  /** `${dto.name} ${dto.apellido ?? ''}`.trim() */
  function NombreCompleto(dto: SyncDto): string {
    Trim(dto.name + " " + dto.apellido.GetOr(""))
  }

  /** `dto.usuario || baseUsername` */
  function UsernameSource(uid: string, dto: SyncDto): string {
    if dto.usuario.Some? && dto.usuario.value != "" then dto.usuario.value
    else BaseUsername(uid, SyncEmail(dto))
  }

  /** The columns the upsert writes from the profile. */
  datatype Profile = Profile(correo: string, nombreCompleto: string, cedula: string, celular: Option<string>)

  function ProfileOf(dto: SyncDto): Profile {
    Profile(SyncEmail(dto), NombreCompleto(dto), dto.cedula.GetOr(""), dto.celular)
  }

  /** A row that would repeat a unique column of an existing row. */
  function SameKey(u: Usuario): Usuario -> bool {
    (x: Usuario) => (u.firebaseUid.Some? && x.firebaseUid == u.firebaseUid) || x.usuario == u.usuario || x.correo == u.correo
  }

  /** The row `syncFromFirebase` creates for a new uid. */
  function NewSyncedUser(uid: string, p: Profile, username: string): Usuario {
    Usuario(Some(uid), p.nombreCompleto, username, p.correo, p.cedula, p.celular, "COP", "offline", None)
  }

  /** The refreshed columns of an existing row. */
  function RefreshedUser(u: Usuario, p: Profile): Usuario {
    u.(correo := p.correo, nombreCompleto := p.nombreCompleto, cedula := p.cedula, celular := p.celular)
  }

  /** Some row other than `id` has the correo. */
  predicate CorreoElsewhere(d: Db, id: int, correo: string) {
    exists k :: k in d.users && k != id && d.users[k].correo == correo
  }

  /** The upsert by firebase_uid: refresh the existing row (keeping its
      username), or create the row with the given username and a wallet
      of balance 0. A repeated unique column fails the write. */
  function UpsertSpec(d: Db, uid: string, p: Profile, username: string): (o: Outcome<Synced>)
    ensures o.result.Err? ==> o.db == d
  {
    match FindUser(d, ByUid(uid))
    case Some(id) =>
      if CorreoElsewhere(d, id, p.correo) then Outcome(Err(UniqueViolation), d)
      else Outcome(Ok(Synced(id, d.users[id].usuario)), d.(users := d.users[id := RefreshedUser(d.users[id], p)]))
    case None =>
      var u := NewSyncedUser(uid, p, username);
      if FindUser(d, SameKey(u)).Some? then Outcome(Err(UniqueViolation), d)
      else
        var id := d.nextUserId;
        Outcome(Ok(Synced(id, username)),
                d.(users := d.users[id := u], wallets := d.wallets[id := Wallet(0, 0)], nextUserId := id + 1))
  }

  /** `syncFromFirebase(uid, dto)`, `stamp` feeding ensureUsername: the
      username is chosen first (for a new or an existing uid alike), then
      the upsert. */
  function SyncSpec(d: Db, uid: string, dto: SyncDto, stamp: string): (o: Outcome<Synced>)
    ensures o.result.Err? ==> o.db == d
  {
    UpsertSpec(d, uid, ProfileOf(dto), EnsureUsernameSpec(d, UsernameSource(uid, dto), stamp))
  }

  // ---------------------------------------------------------------------
  // Properties
  // ---------------------------------------------------------------------

  /** A base that already has the username format is its own seed. */
  lemma SeedOfValidName(raw: string)
    requires UsernameFormat(raw)
    ensures Seed(raw) == raw
  {
    assert ToLower(raw) == raw;
    KeepUsernameCharsAll(raw);
  }

  /** A base with fewer than 3 or more than 20 usable characters falls
      back to "user". */
  lemma SeedFallback(raw: string)
    requires !(3 <= |KeepUsernameChars(ToLower(raw))| <= 20)
    ensures Seed(raw) == "user"
  {
  }

  /** What `ensureUsername` picks: the seed when it is free; otherwise
      the first free seed-i for i in 1..999, every earlier candidate being
      taken; only when all 999 are taken, the unchecked seed-stamp name. */
  lemma EnsureUsernamePicks(d: Db, raw: string, stamp: string)
    ensures var r := EnsureUsernameSpec(d, raw, stamp);
      var seed := Seed(raw);
      && (!Taken(d, seed) ==> r == seed)
      && (Taken(d, seed) && FirstFreeFrom(d, seed, 1).Some? ==>
            var i := FirstFreeFrom(d, seed, 1).value;
            1 <= i <= 999 && r == Candidate(seed, i) && !Taken(d, r)
            && forall j :: 1 <= j < i ==> Taken(d, Candidate(seed, j)))
      && (Taken(d, seed) && FirstFreeFrom(d, seed, 1).None? ==>
            r == seed + "-" + stamp && forall j :: 1 <= j <= 999 ==> Taken(d, Candidate(seed, j)))
  {
  }

  /** Unless all thousand names are taken, the name is free. */
  lemma EnsureUsernameFree(d: Db, raw: string, stamp: string)
    requires !Taken(d, Seed(raw)) || exists j :: 1 <= j <= 999 && !Taken(d, Candidate(Seed(raw), j))
    ensures !Taken(d, EnsureUsernameSpec(d, raw, stamp))
  {
  }

  /** `setUsername` refuses a bad format or a reserved name, then a taken
      name, then an unknown uid, each before any write. */
  lemma SetUsernameRejects(d: Db, uid: string, desired: string)
    ensures var o := SetUsernameSpec(d, uid, desired);
      var clean := CleanUsername(desired);
      && (!UsernameFormat(clean) ==> o == Outcome(Err(InvalidUsername), d))
      && (Reserved(clean) ==> o == Outcome(Err(InvalidUsername), d))
      && (UsernameFormat(clean) && !Reserved(clean) && Taken(d, clean) ==> o == Outcome(Err(UsernameTaken), d))
  {
  }

  /** A reserved name is refused whatever its case or padding. */
  lemma SetUsernameRefusesReserved(d: Db, uid: string, desired: string)
    requires Reserved(CleanUsername(desired))
    ensures SetUsernameSpec(d, uid, desired) == Outcome(Err(InvalidUsername), d)
  {
  }

  /** Case and padding do not matter: any spelling of a well-formed name
      in capitals with a space on each side (" ADMIN " for "admin") cleans
      to the name itself. */
  lemma CleanPaddedUpper(name: string)
    requires UsernameFormat(name)
    ensures CleanUsername(" " + ToUpper(name) + " ") == name
  {
    assert ToLower(" " + ToUpper(name) + " ") == " " + name + " " by {
      assert forall i :: 0 <= i < |name| ==> LowerChar(UpperChar(name[i])) == name[i];
    }
    assert forall i :: 0 <= i < |name| ==> !IsWhite(name[i]) by {
      assert forall i :: 0 <= i < |name| ==> UsernameChar(name[i]);
    }
    TrimPadded(name);
  }

  /** A name is taken exactly when the lookup by usuario finds a row. */
  lemma TakenFound(d: Db, name: string)
    ensures Taken(d, name) <==> FindUser(d, ByUsuario(name)).Some?
  {
    var f := FindUser(d, ByUsuario(name));
    if f.Some? {
      assert ByUsuario(name)(d.users[f.value]);
    } else {
      forall k | 1 <= k < d.nextUserId && k in d.users
        ensures d.users[k].usuario != name
      {
        assert !ByUsuario(name)(d.users[k]);
      }
    }
  }

  /** What a successful `setUsername` has checked and what it writes. */
  lemma SetUsernameOk(d: Db, uid: string, desired: string)
    requires SetUsernameSpec(d, uid, desired).result.Ok?
    ensures var name := CleanUsername(desired);
      && UsernameFormat(name) && !Reserved(name) && !Taken(d, name)
      && FindUser(d, ByUid(uid)).Some?
      && var id := FindUser(d, ByUid(uid)).value;
         SetUsernameSpec(d, uid, desired) == Outcome(Ok(name), d.(users := d.users[id := d.users[id].(usuario := name)]))
  {
  }

  /** A successful `setUsername` gives the uid's row the cleaned name,
      which no row had before, so afterwards exactly that row has it;
      nothing else changes. */
  lemma {:induction false} SetUsernameEffects(d: Db, uid: string, desired: string)
    requires Valid(d)
    requires SetUsernameSpec(d, uid, desired).result.Ok?
    ensures var o := SetUsernameSpec(d, uid, desired);
      var name := o.result.value;
      var id := FindUser(d, ByUid(uid)).value;
      && name == CleanUsername(desired) && UsernameFormat(name) && !Reserved(name)
      && o.db.users == d.users[id := d.users[id].(usuario := name)]
      && (forall k :: k in o.db.users ==> (o.db.users[k].usuario == name <==> k == id))
      && o.db.wallets == d.wallets && o.db.movements == d.movements && Valid(o.db)
  {
    SetUsernameOk(d, uid, desired);
    var name := CleanUsername(desired);
    var id := FindUser(d, ByUid(uid)).value;
    var users' := d.users[id := d.users[id].(usuario := name)];
    assert users'.Keys == d.users.Keys;
    assert forall k :: k in d.users ==> d.users[k].usuario != name;
    assert Valid(d.(users := users'));
  }

  /** Usernames are case- and padding-insensitive on both sides: a name
      set through `setUsername` resolves through `getEmailByUsername` from
      any spelling that cleans to it. */
  lemma SetUsernameThenLookup(d: Db, uid: string, desired: string, asked: string)
    requires Valid(d)
    requires SetUsernameSpec(d, uid, desired).result.Ok?
    requires CleanUsername(asked) == CleanUsername(desired)
    ensures var o := SetUsernameSpec(d, uid, desired);
      EmailByUsernameSpec(o.db, asked) == Some(d.users[FindUser(d, ByUid(uid)).value].correo)
  {
    var o := SetUsernameSpec(d, uid, desired);
    var id := FindUser(d, ByUid(uid)).value;
    var name := CleanUsername(desired);
    SetUsernameEffects(d, uid, desired);
    assert ToLower(Trim(asked)) == name by {
      ToLowerTrim(asked);
    }
    FindUserUnique(o.db, ByUsuario(name), id);
  }

  /** `updateEstadoCuenta` writes only the uid's row: the state always,
      the last login only when going online; an unknown uid changes
      nothing. */
  lemma UpdateEstadoCuentaEffects(d: Db, uid: string, estado: EstadoCuenta, now: int)
    ensures var d' := UpdateEstadoCuentaSpec(d, uid, estado, now);
      && d'.users.Keys == d.users.Keys
      && d'.wallets == d.wallets && d'.movements == d.movements && d'.bets == d.bets
      && (FindUser(d, ByUid(uid)).None? ==> d' == d)
      && (FindUser(d, ByUid(uid)).Some? ==>
            var id := FindUser(d, ByUid(uid)).value;
            && d'.users[id].estadoCuenta == EstadoText(estado)
            && (estado == Online ==> d'.users[id].fechaUltimoIngreso == Some(now))
            && (estado == Offline ==> d'.users[id].fechaUltimoIngreso == d.users[id].fechaUltimoIngreso)
            && d'.users[id].usuario == d.users[id].usuario && d'.users[id].correo == d.users[id].correo
            && forall k :: k in d.users && k != id ==> d'.users[k] == d.users[k])
  {
  }

  /** A lookup by username answers the correo of the row with exactly
      that usuario, and null when there is none. */
  lemma EmailByUsuarioFinds(d: Db, name: string)
    requires Valid(d)
    ensures var r := CorreoOf(d, FindUser(d, ByUsuario(name)));
      && (r.None? <==> forall k :: k in d.users ==> d.users[k].usuario != name)
      && (r.Some? ==> exists k :: k in d.users && d.users[k].usuario == name && d.users[k].correo == r.value)
  {
    var f := FindUser(d, ByUsuario(name));
    if f.None? {
      forall k | k in d.users
        ensures d.users[k].usuario != name
      {
        assert !ByUsuario(name)(d.users[k]);
      }
    } else {
      assert ByUsuario(name)(d.users[f.value]);
    }
  }

  /** A blank phone number finds nothing; any other answers the correo of
      the lowest-id row holding the trimmed number, and null exactly when
      no row holds it. */
  lemma EmailByCelularFinds(d: Db, celular: string)
    requires Valid(d)
    ensures Trim(celular) == "" ==> EmailByCelularSpec(d, celular).None?
    ensures var c := Trim(celular); var r := EmailByCelularSpec(d, celular);
      c != "" ==> (r.None? <==> forall k :: k in d.users ==> d.users[k].celular != Some(c))
    ensures var c := Trim(celular); var r := EmailByCelularSpec(d, celular);
      r.Some? ==> exists k :: && k in d.users && d.users[k].celular == Some(c) && d.users[k].correo == r.value
                             && forall j :: j in d.users && d.users[j].celular == Some(c) ==> k <= j
  {
    var c := Trim(celular);
    if c != "" {
      var g := FindUser(d, ByCelular(c));
      if g.None? {
        forall k | k in d.users
          ensures d.users[k].celular != Some(c)
        {
          assert !ByCelular(c)(d.users[k]);
        }
      } else {
        var k := g.value;
        assert ByCelular(c)(d.users[k]);
        forall j | j in d.users && d.users[j].celular == Some(c)
          ensures k <= j
        {
          assert ByCelular(c)(d.users[j]);
        }
      }
    }
  }

  /** Without a usuario in the profile, the username source is the
      e-mail's local part: a prefix of the normalised e-mail, with no '@',
      already lower-case. */
  lemma {:induction false} UsernameSourceFromEmail(uid: string, dto: SyncDto)
    requires dto.usuario.None? || dto.usuario == Some("")
    requires LocalPart(SyncEmail(dto)) != ""
    ensures UsernameSource(uid, dto) == LocalPart(SyncEmail(dto))
    ensures StartsWith(SyncEmail(dto), UsernameSource(uid, dto)) && '@' !in UsernameSource(uid, dto)
  {
    var e := SyncEmail(dto);
    var l := LocalPart(e);
    assert l == e[..|l|];
    assert ToLower(l) == l by {
      forall i | 0 <= i < |l|
        ensures LowerChar(l[i]) == l[i]
      {
        assert l[i] == e[i] == LowerChar(Trim(dto.email)[i]);
      }
    }
  }

  /** A given usuario is used as it is; without one, an e-mail that
      starts with '@' has an empty local part and the uid, lower-cased, is
      the source. */
  lemma UsernameSourceFallbacks(uid: string, dto: SyncDto)
    ensures dto.usuario.Some? && dto.usuario.value != "" ==> UsernameSource(uid, dto) == dto.usuario.value
    ensures (dto.usuario.None? || dto.usuario == Some("")) && dto.email != [] && dto.email[0] == '@' ==>
      UsernameSource(uid, dto) == ToLower(uid)
  {
    if dto.email != [] && dto.email[0] == '@' {
      var e := SyncEmail(dto);
      assert e != [] && e[0] == '@' by {
        TrimKeepsFirst(dto.email);
      }
      assert IndexOf(e, '@') == 0;
      assert LocalPart(e) == "";
    }
  }

  /** A successful upsert of a new uid creates one row, keyed by the next
      id, with the profile's columns and the given username, and one wallet
      with balance 0; no existing row had that correo or username. */
  lemma UpsertCreates(d: Db, uid: string, p: Profile, username: string)
    requires Valid(d)
    requires FindUser(d, ByUid(uid)).None? && UpsertSpec(d, uid, p, username).result.Ok?
    ensures var o := UpsertSpec(d, uid, p, username);
      var id := d.nextUserId;
      && id !in d.users
      && o.result.value == Synced(id, username)
      && o.db.users == d.users[id := NewSyncedUser(uid, p, username)]
      && o.db.users[id].correo == p.correo && o.db.users[id].firebaseUid == Some(uid)
      && o.db.wallets == d.wallets[id := Wallet(0, 0)]
      && o.db.movements == d.movements
      && (forall k :: k in d.users ==> d.users[k].correo != p.correo && d.users[k].usuario != username)
      && Valid(o.db)
  {
    var u := NewSyncedUser(uid, p, username);
    forall k | k in d.users
      ensures d.users[k].correo != u.correo && d.users[k].usuario != u.usuario
    {
      assert !SameKey(u)(d.users[k]);
    }
  }

  /** A successful upsert of a known uid rewrites that row's profile
      columns only, and answers its id and its unchanged username. */
  lemma UpsertRefreshes(d: Db, uid: string, p: Profile, username: string)
    requires FindUser(d, ByUid(uid)).Some? && UpsertSpec(d, uid, p, username).result.Ok?
    ensures var o := UpsertSpec(d, uid, p, username);
      var id := FindUser(d, ByUid(uid)).value;
      && o.result.value == Synced(id, d.users[id].usuario)
      && o.db.users == d.users[id := RefreshedUser(d.users[id], p)]
      && o.db.users[id].usuario == d.users[id].usuario && o.db.users[id].correo == p.correo
      && o.db.wallets == d.wallets && o.db.movements == d.movements
      && !CorreoElsewhere(d, id, p.correo)
  {
  }

  /** The upsert is idempotent per uid: repeating a successful one with
      the same profile, whatever username is offered the second time,
      answers the same id and username and changes nothing. */
  lemma UpsertIdempotent(d: Db, uid: string, p: Profile, username: string, username': string)
    requires Valid(d)
    requires UpsertSpec(d, uid, p, username).result.Ok?
    ensures var o := UpsertSpec(d, uid, p, username);
      var o' := UpsertSpec(o.db, uid, p, username');
      o'.result == o.result && o'.db == o.db
  {
    if FindUser(d, ByUid(uid)).None? {
      UpsertAgainAfterCreate(d, uid, p, username, username');
    } else {
      UpsertAgainAfterRefresh(d, uid, p, username, username');
    }
  }

  lemma {:induction false} UpsertAgainAfterCreate(d: Db, uid: string, p: Profile, username: string, username': string)
    requires Valid(d)
    requires FindUser(d, ByUid(uid)).None? && UpsertSpec(d, uid, p, username).result.Ok?
    ensures var o := UpsertSpec(d, uid, p, username);
      var o' := UpsertSpec(o.db, uid, p, username');
      o'.result == o.result && o'.db == o.db
  {
    var o := UpsertSpec(d, uid, p, username);
    var id := d.nextUserId;
    UpsertCreates(d, uid, p, username);
    forall k | k in d.users
      ensures !ByUid(uid)(o.db.users[k])
    {
      assert !ByUid(uid)(d.users[k]);
    }
    assert ByUid(uid)(o.db.users[id]);
    assert FindUser(o.db, ByUid(uid)) == Some(id);
    assert !CorreoElsewhere(o.db, id, p.correo);
  }

  lemma UpsertAgainAfterRefresh(d: Db, uid: string, p: Profile, username: string, username': string)
    requires Valid(d)
    requires FindUser(d, ByUid(uid)).Some? && UpsertSpec(d, uid, p, username).result.Ok?
    ensures var o := UpsertSpec(d, uid, p, username);
      var o' := UpsertSpec(o.db, uid, p, username');
      o'.result == o.result && o'.db == o.db
  {
    var o := UpsertSpec(d, uid, p, username);
    var id := FindUser(d, ByUid(uid)).value;
    UpsertRefreshes(d, uid, p, username);
    assert ByUid(uid)(o.db.users[id]);
    forall k | k in o.db.users && k < id
      ensures !ByUid(uid)(o.db.users[k])
    {
      assert o.db.users[k] == d.users[k];
    }
    assert FindUser(o.db, ByUid(uid)) == Some(id);
    assert RefreshedUser(o.db.users[id], p) == o.db.users[id];
    assert !CorreoElsewhere(o.db, id, p.correo);
  }

  /** So `syncFromFirebase` is idempotent per uid, as its contract
      promises: a repeat with the same profile, at any later time, answers
      the same and changes nothing. */
  lemma SyncIdempotent(d: Db, uid: string, dto: SyncDto, stamp: string, stamp': string)
    requires Valid(d)
    requires SyncSpec(d, uid, dto, stamp).result.Ok?
    ensures var o := SyncSpec(d, uid, dto, stamp);
      var o' := SyncSpec(o.db, uid, dto, stamp');
      o'.result == o.result && o'.db == o.db
  {
    var p := ProfileOf(dto);
    var o := SyncSpec(d, uid, dto, stamp);
    UpsertIdempotent(d, uid, p, EnsureUsernameSpec(d, UsernameSource(uid, dto), stamp),
                     EnsureUsernameSpec(o.db, UsernameSource(uid, dto), stamp'));
  }

  class UsuarioService {
    const db: Store

    constructor(db: Store)
      ensures this.db == db
    {
      this.db := db;
    }

    /** `ensureUsername(baseRaw)`: the seed, then seed1 .. seed999, each
        looked up in turn. */
    method EnsureUsername(raw: string, stamp: string) returns (r: string)
      ensures r == EnsureUsernameSpec(db.State(), raw, stamp)
    {
      var seed := Seed(raw);
      var seedHit := db.FindFirst(ByUsuario(seed));
      TakenFound(db.State(), seed);
      if seedHit.None? {
        return seed;
      }
      var i := 1;
      while i <= 999
        invariant 1 <= i <= 1000
        invariant FirstFreeFrom(db.State(), seed, i) == FirstFreeFrom(db.State(), seed, 1)
        decreases 1000 - i
      {
        var candidate := Candidate(seed, i);
        var hit := db.FindFirst(ByUsuario(candidate));
        TakenFound(db.State(), candidate);
        if hit.None? {
          return candidate;
        }
        i := i + 1;
      }
      r := seed + "-" + stamp;
    }

    /** `setUsername(uid, desired)` */
    method SetUsername(uid: string, desired: string) returns (r: Result<string>)
      modifies db
      ensures var o := SetUsernameSpec(old(db.State()), uid, desired);
        r == o.result && db.State() == o.db
    {
      var clean := CleanUsername(desired);
      if !UsernameFormat(clean) || Reserved(clean) {
        return Err(InvalidUsername);
      }
      var taken := db.FindFirst(ByUsuario(clean));
      TakenFound(db.State(), clean);
      if taken.Some? {
        return Err(UsernameTaken);
      }
      r := Rename(uid, clean);
    }

    /** The update by firebase_uid: a missing row is RecordNotFound. */
    method Rename(uid: string, name: string) returns (r: Result<string>)
      modifies db
      ensures var o := Renamed(old(db.State()), FindUser(old(db.State()), ByUid(uid)), name);
        r == o.result && db.State() == o.db
    {
      var found := db.FindFirst(ByUid(uid));
      if found.None? {
        return Err(RecordNotFound);
      }
      var id := found.value;
      db.users := db.users[id := db.users[id].(usuario := name)];
      r := Ok(name);
    }

    /** `updateEstadoCuenta(uid, estado)`; the answer is always ok. */
    method UpdateEstadoCuenta(uid: string, estado: EstadoCuenta, now: int) returns (ok: bool)
      modifies db
      ensures ok && db.State() == UpdateEstadoCuentaSpec(old(db.State()), uid, estado, now)
    {
      var found := db.FindFirst(ByUid(uid));
      if found.Some? {
        var id := found.value;
        var u := db.users[id];
        var fecha := if estado == Online then Some(now) else u.fechaUltimoIngreso;
        db.users := db.users[id := u.(estadoCuenta := EstadoText(estado), fechaUltimoIngreso := fecha)];
      }
      ok := true;
    }

    /** `getEmailByUsername(usuario)` */
    method GetEmailByUsername(usuario: string) returns (r: Option<string>)
      ensures r == EmailByUsernameSpec(db.State(), usuario)
    {
      var hit := db.FindFirst(ByUsuario(ToLower(Trim(usuario))));
      r := CorreoOf(db.State(), hit);
    }

    /** `getEmailByCelular(celular)` */
    method GetEmailByCelular(celular: string) returns (r: Option<string>)
      ensures r == EmailByCelularSpec(db.State(), celular)
    {
      var c := Trim(celular);
      if c == "" {
        return None;
      }
      var hit := db.FindFirst(ByCelular(c));
      r := CorreoOf(db.State(), hit);
    }

    /** `syncFromFirebase(uid, dto)`: the username is chosen first, then
        the upsert by firebase_uid. */
    method SyncFromFirebase(uid: string, dto: SyncDto, stamp: string) returns (r: Result<Synced>)
      modifies db
      ensures var o := SyncSpec(old(db.State()), uid, dto, stamp);
        r == o.result && db.State() == o.db
    {
      var username := EnsureUsername(UsernameSource(uid, dto), stamp);
      r := Upsert(uid, ProfileOf(dto), username);
    }

    /** The `usuario.upsert` of `syncFromFirebase`. */
    method Upsert(uid: string, p: Profile, username: string) returns (r: Result<Synced>)
      modifies db
      ensures var o := UpsertSpec(old(db.State()), uid, p, username);
        r == o.result && db.State() == o.db
    {
      var found := db.FindFirst(ByUid(uid));
      if found.Some? {
        var id := found.value;
        if CorreoElsewhere(db.State(), id, p.correo) {
          return Err(UniqueViolation);
        }
        db.users := db.users[id := RefreshedUser(db.users[id], p)];
        return Ok(Synced(id, db.users[id].usuario));
      }
      var u := NewSyncedUser(uid, p, username);
      var clash := db.FindFirst(SameKey(u));
      if clash.Some? {
        return Err(UniqueViolation);
      }
      var id := db.nextUserId;
      db.users := db.users[id := u];
      db.wallets := db.wallets[id := Wallet(0, 0)];
      db.nextUserId := id + 1;
      r := Ok(Synced(id, username));
    }
  }
}
