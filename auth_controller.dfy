/** AuthController: `verify` checks a Firebase token taken from the
    Authorization header or the body; `link` provisions the database user
    and wallet of a Firebase account, picking a free username with
    `ensureUniqueUsername`. Firebase's token verification is a parameter. */
module Auth {
  import opened Wrappers
  import opened Js
  import opened Store
  import opened Usuarios

  /** What Firebase's `verifyIdToken` yields that the routes read. */
  datatype Decoded = Decoded(uid: string, email: Option<string>, emailVerified: Option<bool>, name: Option<string>)

  /** The answer of `verify`. */
  datatype VerifyReply =
    | MissingToken
    | Verified(uid: string, email: Option<string>, emailVerified: bool, name: Option<string>)

  /** The body of `link`; an absent text field is the empty text (both are
      falsy to the checks). */
  datatype LinkDto = LinkDto(
    idToken: string,
    nombreCompleto: string,
    usuario: string,
    correo: string,
    cedula: string,
    celular: Option<string>,
    moneda: Option<string>)

  /** The answer of `link`. */
  datatype Linked = Linked(usuarioId: int, created: bool)

  const IdTokenRequired := BadRequest("idToken requerido")
  const UniqueConflict := Conflict("Conflicto de unicidad en Usuario")
  const NoUniqueUsername := Conflict("No fue posible generar un usuario único")

  /** The estado_de_cuenta column default for rows `link` creates. */
  const DefaultEstado := "offline"

  // ---------------------------------------------------------------------
  // verify
  // ---------------------------------------------------------------------

  /** `authHeader?.startsWith('Bearer ') ? authHeader.slice(7) : undefined` */
  function BearerOf(authHeader: Option<string>): (r: Option<string>)
    ensures r.Some? ==> authHeader.Some? && authHeader.value == "Bearer " + r.value
  {
    if authHeader.Some? && StartsWith(authHeader.value, "Bearer ") then
      assert authHeader.value == "Bearer " + authHeader.value[7..];
      Some(authHeader.value[7..])
    else None
  }

  /** `bearer ?? body.token`, kept only when truthy. */
  function TokenOf(authHeader: Option<string>, bodyToken: Option<string>): Option<string> {
    var token := if BearerOf(authHeader).Some? then BearerOf(authHeader) else bodyToken;
    if token.Some? && token.value != "" then token else None
  }

  /** `verify(authHeader, body)`, `verifyIdToken` being the parameter. */
  function VerifySpec(authHeader: Option<string>, bodyToken: Option<string>,
                      verifyIdToken: string -> Result<Decoded>): Result<VerifyReply> {
    match TokenOf(authHeader, bodyToken)
    case None => Ok(MissingToken)
    case Some(token) =>
      match verifyIdToken(token)
      case Err(e) => Err(e)
      case Ok(dec) => Ok(Verified(dec.uid, dec.email, dec.emailVerified.GetOr(false), dec.name))
  }

  // ---------------------------------------------------------------------
  // ensureUniqueUsername
  // ---------------------------------------------------------------------

  /** The k-th name tried: the trimmed base (or "user" when that is
      empty), then `${base}-${k}` from the untrimmed base. */
  function Attempt(base: string, k: nat): string {
    if k == 0 then (if Trim(base) == "" then "user" else Trim(base))
    else base + "-" + NatToString(k)
  }

  /** The first attempt in `i..999` whose name is free. */
  function FirstFreeAttempt(d: Db, base: string, i: nat): (r: Option<nat>)
    ensures r.Some? ==> i <= r.value < 1000 && !Taken(d, Attempt(base, r.value))
    ensures r.Some? ==> forall k :: i <= k < r.value ==> Taken(d, Attempt(base, k))
    ensures r.None? ==> forall k :: i <= k < 1000 ==> Taken(d, Attempt(base, k))
    decreases 1000 - i
  {
    if i >= 1000 then None
    else if !Taken(d, Attempt(base, i)) then Some(i)
    else FirstFreeAttempt(d, base, i + 1)
  }

  /** `ensureUniqueUsername(base)`: the first free of the thousand
      attempts, or a Conflict. */
  function UniqueUsernameSpec(d: Db, base: string): Result<string> {
    match FirstFreeAttempt(d, base, 0)
    case Some(k) => Ok(Attempt(base, k))
    case None => Err(NoUniqueUsername)
  }

  // ---------------------------------------------------------------------
  // link
  // ---------------------------------------------------------------------

  /** `faltantes`, in the order the checks push them. */
  function Missing(dto: LinkDto): (r: seq<string>)
    ensures |r| <= 4
  {
    (if dto.nombreCompleto == "" then ["nombre_completo"] else [])
    + (if dto.usuario == "" then ["usuario"] else [])
    + (if dto.correo == "" then ["correo"] else [])
    + (if dto.cedula == "" then ["cedula"] else [])
  }

  /** The row `link` creates. */
  function LinkedUser(uid: string, dto: LinkDto, username: string): Usuario {
    Usuario(Some(uid), dto.nombreCompleto, username, dto.correo, dto.cedula, dto.celular,
            dto.moneda.GetOr("COP"), DefaultEstado, None)
  }

  /** The transaction of `link`: the user and a wallet with balance 0, or
      neither; a repeated unique column becomes a Conflict. */
  function CreateLinkedSpec(d: Db, u: Usuario): (o: Outcome<Linked>)
    ensures o.result.Err? ==> o.db == d
  {
    if FindUser(d, SameKey(u)).Some? then Outcome(Err(UniqueConflict), d)
    else
      var id := d.nextUserId;
      Outcome(Ok(Linked(id, true)),
              d.(users := d.users[id := u], wallets := d.wallets[id := Wallet(0, 0)], nextUserId := id + 1))
  }

  /** The part of `link` after the checks: pick the username, then
      create. */
  function ProvisionSpec(d: Db, uid: string, dto: LinkDto): (o: Outcome<Linked>)
    ensures o.result.Err? ==> o.db == d
  {
    match UniqueUsernameSpec(d, dto.usuario)
    case Err(e) => Outcome(Err(e), d)
    case Ok(username) => CreateLinkedSpec(d, LinkedUser(uid, dto, username))
  }

  /** `link(dto)`, `verifyIdToken` yielding the uid. */
  function LinkSpec(d: Db, dto: LinkDto, verifyIdToken: string -> Result<string>): (o: Outcome<Linked>)
    ensures o.result.Err? ==> o.db == d
  {
    if dto.idToken == "" then Outcome(Err(IdTokenRequired), d)
    else
      match verifyIdToken(dto.idToken)
      case Err(e) => Outcome(Err(e), d)
      case Ok(uid) =>
        match FindUser(d, ByUid(uid))
        case Some(id) => Outcome(Ok(Linked(id, false)), d)
        case None =>
          var missing := Missing(dto);
          if |missing| > 0 then Outcome(Err(BadRequest("Faltan campos requeridos: " + Join(missing, ", "))), d)
          else ProvisionSpec(d, uid, dto)
  }

  // ---------------------------------------------------------------------
  // Properties
  // ---------------------------------------------------------------------

  /** The token comes from the header when it starts with "Bearer "
      (the text after those seven characters), else from the body; with
      neither, nothing is verified. */
  lemma TokenSources(h: string, bodyToken: Option<string>, verifyIdToken: string -> Result<Decoded>)
    ensures h != "" ==> TokenOf(Some("Bearer " + h), bodyToken) == Some(h)
    ensures TokenOf(None, bodyToken) == (if bodyToken == Some("") then None else bodyToken)
    ensures VerifySpec(None, None, verifyIdToken) == Ok(MissingToken)
  {
    assert StartsWith("Bearer " + h, "Bearer ") by {
      assert ("Bearer " + h)[..7] == "Bearer ";
    }
    assert ("Bearer " + h)[7..] == h;
  }

  /** A bare "Bearer " header is an empty token that is not nullish, so
      the body's token is never consulted and the answer is ok:false. */
  lemma EmptyBearerHidesBody(bodyToken: Option<string>, verifyIdToken: string -> Result<Decoded>)
    ensures VerifySpec(Some("Bearer "), bodyToken, verifyIdToken) == Ok(MissingToken)
  {
    assert StartsWith("Bearer ", "Bearer ");
    assert BearerOf(Some("Bearer ")) == Some("");
  }

  /** A verified token is answered with its uid, and email_verified
      defaults to false. */
  lemma VerifyAnswers(authHeader: Option<string>, bodyToken: Option<string>, verifyIdToken: string -> Result<Decoded>)
    requires TokenOf(authHeader, bodyToken).Some?
    requires verifyIdToken(TokenOf(authHeader, bodyToken).value).Ok?
    ensures var dec := verifyIdToken(TokenOf(authHeader, bodyToken).value).value;
      var r := VerifySpec(authHeader, bodyToken, verifyIdToken);
      && r.Ok? && r.value.Verified? && r.value.uid == dec.uid
      && (r.value.emailVerified <==> dec.emailVerified == Some(true))
  {
  }

  /** What `ensureUniqueUsername` returns is free, and every attempt
      before it is taken; a Conflict means all thousand are taken. A name
      other than the first attempt is the untrimmed base, a dash and the
      attempt number, so the base " ana " is tried as "ana", then as
      " ana -1". */
  lemma {:induction false} UniqueUsernamePicks(d: Db, base: string)
    ensures var r := UniqueUsernameSpec(d, base);
      && (r.Ok? ==> !Taken(d, r.value)
                    && exists k :: 0 <= k < 1000 && r.value == Attempt(base, k)
                                   && forall j :: 0 <= j < k ==> Taken(d, Attempt(base, j)))
      && (r.Ok? && Taken(d, Attempt(base, 0)) ==>
            exists k :: 1 <= k < 1000 && r.value == base + "-" + NatToString(k))
      && (r.Err? <==> forall k :: 0 <= k < 1000 ==> Taken(d, Attempt(base, k)))
      && (r.Err? ==> r.error == NoUniqueUsername)
  {
    var f := FirstFreeAttempt(d, base, 0);
    if f.Some? {
      var k := f.value;
      assert UniqueUsernameSpec(d, base).value == Attempt(base, k);
      if Taken(d, Attempt(base, 0)) {
        assert k != 0;
        assert Attempt(base, k) == base + "-" + NatToString(k);
      }
    }
  }

  /** A free trimmed base is taken as it is, and a blank base becomes
      "user". */
  lemma UniqueUsernameFirst(d: Db, base: string)
    ensures !Taken(d, Attempt(base, 0)) ==> UniqueUsernameSpec(d, base) == Ok(Attempt(base, 0))
    ensures Trim(base) == "" ==> Attempt(base, 0) == "user"
    ensures Trim(base) != "" ==> Attempt(base, 0) == Trim(base)
  {
  }

  /** An already linked uid is answered created:false with no write,
      whatever the rest of the body holds. */
  lemma LinkExisting(d: Db, dto: LinkDto, verifyIdToken: string -> Result<string>)
    requires dto.idToken != "" && verifyIdToken(dto.idToken).Ok?
    requires FindUser(d, ByUid(verifyIdToken(dto.idToken).value)).Some?
    ensures LinkSpec(d, dto, verifyIdToken)
      == Outcome(Ok(Linked(FindUser(d, ByUid(verifyIdToken(dto.idToken).value)).value, false)), d)
  {
  }

  /** The missing fields are listed in the order nombre_completo,
      usuario, correo, cedula, and nothing is created. */
  lemma LinkMissing(d: Db, dto: LinkDto, verifyIdToken: string -> Result<string>)
    requires dto.idToken != "" && verifyIdToken(dto.idToken).Ok?
    requires FindUser(d, ByUid(verifyIdToken(dto.idToken).value)).None?
    requires |Missing(dto)| > 0
    ensures LinkSpec(d, dto, verifyIdToken)
      == Outcome(Err(BadRequest("Faltan campos requeridos: " + Join(Missing(dto), ", "))), d)
    ensures dto.nombreCompleto == "" ==> Missing(dto)[0] == "nombre_completo"
    ensures dto.nombreCompleto != "" && dto.usuario == "" ==> Missing(dto)[0] == "usuario"
    ensures dto.cedula == "" ==> Missing(dto)[|Missing(dto)| - 1] == "cedula"
  {
    var front := (if dto.nombreCompleto == "" then ["nombre_completo"] else [])
      + (if dto.usuario == "" then ["usuario"] else [])
      + (if dto.correo == "" then ["correo"] else []);
    assert Missing(dto) == front + (if dto.cedula == "" then ["cedula"] else []);
  }

  /** The fields `link` requires, in the order it checks them. */
  const LinkFields: seq<string> := ["nombre_completo", "usuario", "correo", "cedula"]

  /** The value of the i-th required field. */
  function LinkField(dto: LinkDto, i: nat): string
    requires i < 4
  {
    if i == 0 then dto.nombreCompleto else if i == 1 then dto.usuario else if i == 2 then dto.correo else dto.cedula
  }

  /** The names of the empty fields among LinkFields[i..], in that order. */
  function MissingFrom(dto: LinkDto, i: nat): seq<string>
    requires i <= 4
    decreases 4 - i
  {
    if i == 4 then []
    else (if LinkField(dto, i) == "" then [LinkFields[i]] else []) + MissingFrom(dto, i + 1)
  }

  /** `faltantes` names exactly the empty fields, each once, in the order
      nombre_completo, usuario, correo, cedula; with every field empty
      it lists all four. */
  lemma {:induction false} LinkAllMissing(dto: LinkDto)
    ensures Missing(dto) == MissingFrom(dto, 0)
    ensures forall i :: 0 <= i < 4 ==> (LinkFields[i] in Missing(dto) <==> LinkField(dto, i) == "")
    ensures dto.nombreCompleto == "" && dto.usuario == "" && dto.correo == "" && dto.cedula == "" ==>
      Missing(dto) == LinkFields
  {
    assert Missing(dto) == MissingFrom(dto, 0) by {
      assert MissingFrom(dto, 3) == if dto.cedula == "" then ["cedula"] else [];
      assert MissingFrom(dto, 2) == (if dto.correo == "" then ["correo"] else []) + MissingFrom(dto, 3);
      assert MissingFrom(dto, 1) == (if dto.usuario == "" then ["usuario"] else []) + MissingFrom(dto, 2);
    }
    MissingFromFields(dto, 0);
  }

  /** MissingFrom(dto, j) holds the name of each empty field from the j-th
      on, and no earlier name. */
  lemma {:induction false} MissingFromFields(dto: LinkDto, j: nat)
    requires j <= 4
    ensures forall i :: 0 <= i < 4 ==> (LinkFields[i] in MissingFrom(dto, j) <==> j <= i && LinkField(dto, i) == "")
    decreases 4 - j
  {
    assert forall a, b :: 0 <= a < b < 4 ==> LinkFields[a] != LinkFields[b] by {
      assert LinkFields[2][1] != LinkFields[3][1];
    }
    if j < 4 {
      MissingFromFields(dto, j + 1);
    }
  }

  /** A new link creates the user under the next id, with the chosen
      username, the dto's columns and moneda defaulting to COP, and a
      wallet with balance 0; no existing row shared its username or
      correo. */
  lemma {:induction false} LinkCreates(d: Db, dto: LinkDto, verifyIdToken: string -> Result<string>)
    requires Valid(d)
    requires dto.idToken != "" && verifyIdToken(dto.idToken).Ok?
    requires FindUser(d, ByUid(verifyIdToken(dto.idToken).value)).None?
    requires LinkSpec(d, dto, verifyIdToken).result.Ok?
    ensures var o := LinkSpec(d, dto, verifyIdToken);
      var uid := verifyIdToken(dto.idToken).value;
      var id := d.nextUserId;
      var username := UniqueUsernameSpec(d, dto.usuario).value;
      && Missing(dto) == []
      && o.result.value == Linked(id, true)
      && id !in d.users
      && o.db.users == d.users[id := LinkedUser(uid, dto, username)]
      && o.db.users[id].moneda == dto.moneda.GetOr("COP")
      && o.db.wallets == d.wallets[id := Wallet(0, 0)]
      && o.db.movements == d.movements
      && (forall k :: k in d.users ==> d.users[k].usuario != username && d.users[k].correo != dto.correo)
      && Valid(o.db)
  {
    var uid := verifyIdToken(dto.idToken).value;
    var u := LinkedUser(uid, dto, UniqueUsernameSpec(d, dto.usuario).value);
    forall k | k in d.users
      ensures d.users[k].usuario != u.usuario && d.users[k].correo != u.correo
    {
      assert !SameKey(u)(d.users[k]);
    }
  }

  /** Linking twice with the same token creates once: the second call
      answers the same id with created:false and writes nothing. */
  lemma {:induction false} LinkTwice(d: Db, dto: LinkDto, verifyIdToken: string -> Result<string>)
    requires Valid(d)
    requires LinkSpec(d, dto, verifyIdToken).result.Ok?
    ensures var o := LinkSpec(d, dto, verifyIdToken);
      var o' := LinkSpec(o.db, dto, verifyIdToken);
      o'.result == Ok(Linked(o.result.value.usuarioId, false)) && o'.db == o.db
  {
    var o := LinkSpec(d, dto, verifyIdToken);
    var uid := verifyIdToken(dto.idToken).value;
    var id := o.result.value.usuarioId;
    if FindUser(d, ByUid(uid)).None? {
      LinkCreates(d, dto, verifyIdToken);
      forall k | k in d.users
        ensures !ByUid(uid)(o.db.users[k])
      {
        assert !ByUid(uid)(d.users[k]);
      }
      assert ByUid(uid)(o.db.users[id]);
      FindUserUnique(o.db, ByUid(uid), id);
    }
  }

  class AuthController {
    const db: Store
    const verifyIdToken: string -> Result<string>

    constructor(db: Store, verifyIdToken: string -> Result<string>)
      ensures this.db == db && this.verifyIdToken == verifyIdToken
    {
      this.db := db;
      this.verifyIdToken := verifyIdToken;
    }

    /** `ensureUniqueUsername(base)` */
    method EnsureUniqueUsername(base: string) returns (r: Result<string>)
      ensures r == UniqueUsernameSpec(db.State(), base)
    {
      var username := Trim(base);
      if username == "" {
        username := "user";
      }
      var i := 0;
      while i < 1000
        invariant 0 <= i <= 1000
        invariant i < 1000 ==> username == Attempt(base, i)
        invariant FirstFreeAttempt(db.State(), base, i) == FirstFreeAttempt(db.State(), base, 0)
        decreases 1000 - i
      {
        var found := db.FindFirst(ByUsuario(username));
        TakenFound(db.State(), username);
        if found.None? {
          return Ok(username);
        }
        i := i + 1;
        username := base + "-" + NatToString(i);
      }
      r := Err(NoUniqueUsername);
    }

    /** `link(dto)` */
    method Link(dto: LinkDto) returns (r: Result<Linked>)
      modifies db
      ensures var o := LinkSpec(old(db.State()), dto, verifyIdToken);
        r == o.result && db.State() == o.db
    {
      if dto.idToken == "" {
        return Err(IdTokenRequired);
      }
      var decoded := verifyIdToken(dto.idToken);
      if decoded.Err? {
        return Err(decoded.error);
      }
      var uid := decoded.value;
      var existing := db.FindFirst(ByUid(uid));
      if existing.Some? {
        return Ok(Linked(existing.value, false));
      }
      var faltantes: seq<string> := [];
      if dto.nombreCompleto == "" {
        faltantes := faltantes + ["nombre_completo"];
      }
      if dto.usuario == "" {
        faltantes := faltantes + ["usuario"];
      }
      if dto.correo == "" {
        faltantes := faltantes + ["correo"];
      }
      if dto.cedula == "" {
        faltantes := faltantes + ["cedula"];
      }
      assert faltantes == Missing(dto);
      if |faltantes| > 0 {
        return Err(BadRequest("Faltan campos requeridos: " + Join(faltantes, ", ")));
      }
      r := Provision(uid, dto);
    }

    /** The username and the transaction of `link`. */
    method Provision(uid: string, dto: LinkDto) returns (r: Result<Linked>)
      modifies db
      ensures var o := ProvisionSpec(old(db.State()), uid, dto);
        r == o.result && db.State() == o.db
    {
      var username := EnsureUniqueUsername(dto.usuario);
      if username.Err? {
        return Err(username.error);
      }
      r := CreateLinked(LinkedUser(uid, dto, username.value));
    }

    /** `prisma.usuario.create` with its nested wallet: refused when a
        unique column is already taken. */
    method CreateLinked(u: Usuario) returns (r: Result<Linked>)
      modifies db
      ensures var o := CreateLinkedSpec(old(db.State()), u);
        r == o.result && db.State() == o.db
    {
      var clash := db.FindFirst(SameKey(u));
      if clash.Some? {
        return Err(UniqueConflict);
      }
      var id := db.nextUserId;
      db.users := db.users[id := u];
      db.wallets := db.wallets[id := Wallet(0, 0)];
      db.nextUserId := id + 1;
      r := Ok(Linked(id, true));
    }
  }
}
