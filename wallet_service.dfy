/** WalletService: the balance read that creates a missing wallet, the
    signed adjustment (recharge or withdrawal) with its movement, and the
    statement by e-mail. `adjust` is one database transaction: on failure
    nothing it wrote survives. */
module Wallets {
  import opened Wrappers
  import opened Js
  import opened Store

  /** What `adjust` returns. */
  datatype Adjusted = Adjusted(saldoCOP: int)

  /** What `resumenPorEmail` returns. */
  datatype EmailStatement = EmailStatement(
    userId: int,
    nombre: string,
    usuario: string,
    correo: string,
    saldo: int,
    movimientos: seq<Movement>)

  /** The statement length of `resumenPorEmail`. */
  const EmailStatementTake := 20

  /** RECARGA for a delta of at least 0, RETIRO below. */
  function AdjustKind(delta: int): MovementKind {
    if delta >= 0 then Recarga else Retiro
  }

  /** `referencia || undefined`: an empty reference is not stored. */
  function StoredReference(referencia: Option<string>): Option<string> {
    if referencia.Some? && referencia.value != "" then referencia else None
  }

  /** The movement `adjust` appends, without its snapshots. */
  function AdjustEntry(delta: int, motivo: string, referencia: Option<string>): Entry {
    Entry(AdjustKind(delta), delta, StoredReference(referencia), None, None, None, Reason(Some(motivo)))
  }

  /** `getBalance`: upsert the wallet at 0, then read it. */
  function GetBalanceSpec(d: Db, u: int): Outcome<int> {
    Outcome(Ok(Upserted(d, u).wallets[u].balance), Upserted(d, u))
  }

  /** `adjust(usuarioId, deltaPesos, motivo, referencia)`: the delta must
      be a finite integer (zero included); inside the transaction the
      wallet is upserted, a negative result is refused, and otherwise the
      balance is overwritten, the version bumped and one movement
      appended. */
  function AdjustSpec(d: Db, u: int, delta: Num, motivo: string, referencia: Option<string>): (o: Outcome<Adjusted>)
    ensures o.result.Err? ==> o.db == d
  {
    if !IsInteger(delta) then
      Outcome(Err(BadRequest("delta debe ser entero en pesos")), d)
    else
      var k := ToInt(delta);
      var d1 := Upserted(d, u);
      var antes := d1.wallets[u].balance;
      if antes + k < 0 then
        Outcome(Err(BadRequest("Saldo insuficiente")), d)
      else
        Outcome(Ok(Adjusted(antes + k)), Posted(d1, u, AdjustEntry(k, motivo, referencia), true))
  }

  /** `getBalance` returns the stored balance, or 0 after creating the
      wallet; an existing wallet is left as it was. */
  lemma GetBalanceEffects(d: Db, u: int)
    requires Ledger(d)
    ensures var o := GetBalanceSpec(d, u);
      && u in o.db.wallets
      && (u in d.wallets ==> o.db == d && o.result == Ok(d.wallets[u].balance))
      && (u !in d.wallets ==> o.result == Ok(0) && o.db.wallets == d.wallets[u := Wallet(0, 0)])
      && o.db.movements == d.movements
      && Ledger(o.db)
  {
    UpsertedLedger(d, u);
  }

  /** The rejections of `adjust`: a delta that is not a finite integer, and
      a result below zero. Both leave the database as it was. */
  lemma AdjustRejects(d: Db, u: int, delta: Num, motivo: string, referencia: Option<string>)
    ensures var o := AdjustSpec(d, u, delta, motivo, referencia);
      && (!IsInteger(delta) ==> o == Outcome(Err(BadRequest("delta debe ser entero en pesos")), d))
      && (IsInteger(delta) && Upserted(d, u).wallets[u].balance + ToInt(delta) < 0 ==>
            o == Outcome(Err(BadRequest("Saldo insuficiente")), d))
      && (o.result.Ok? <==> IsInteger(delta) && Upserted(d, u).wallets[u].balance + ToInt(delta) >= 0)
  {
  }

  /** A successful adjustment sets the balance to the old one plus the
      delta, bumps the version by exactly one, appends exactly one
      movement (RECARGA for delta >= 0, RETIRO otherwise) with both
      snapshots, the reference and the reason, returns the new balance,
      and touches no other wallet. */
  lemma {:induction false} AdjustEffects(d: Db, u: int, delta: Num, motivo: string, referencia: Option<string>)
    requires Ledger(d)
    requires AdjustSpec(d, u, delta, motivo, referencia).result.Ok?
    ensures var o := AdjustSpec(d, u, delta, motivo, referencia);
      var k := ToInt(delta);
      var w := Upserted(d, u).wallets[u];
      && o.result.value.saldoCOP == w.balance + k == o.db.wallets[u].balance
      && o.result.value.saldoCOP >= 0
      && o.db.wallets[u].version == w.version + 1
      && o.db.movements == d.movements + [Movement(|d.movements| + 1, u, w.balance, w.balance + k,
                                                   Entry(if k >= 0 then Recarga else Retiro, k, StoredReference(referencia),
                                                         None, None, None, Reason(Some(motivo))))]
      && (forall v :: v != u && v in d.wallets ==> v in o.db.wallets && o.db.wallets[v] == d.wallets[v])
      && o.db.bets == d.bets && o.db.rounds == d.rounds && o.db.transfers == d.transfers
      && Ledger(o.db)
  {
    UpsertedLedger(d, u);
    PostedLedger(Upserted(d, u), u, AdjustEntry(ToInt(delta), motivo, referencia), true);
  }

  /** A zero delta is accepted: it appends a RECARGA movement of 0 and
      bumps the version, leaving the balance as it was. */
  lemma AdjustZero(d: Db, u: int, motivo: string)
    requires Ledger(d)
    requires u in d.wallets && d.wallets[u].balance >= 0
    ensures var o := AdjustSpec(d, u, Fin(0.0), motivo, None);
      && o.result == Ok(Adjusted(d.wallets[u].balance))
      && o.db.wallets[u] == Wallet(d.wallets[u].balance, d.wallets[u].version + 1)
      && |o.db.movements| == |d.movements| + 1
      && o.db.movements[|d.movements|].entry.tipo == Recarga
  {
    assert IsInteger(Fin(0.0));
    assert ToInt(Fin(0.0)) == 0;
  }

  /** `adjust` keeps the ledger invariant whatever happens. */
  lemma AdjustKeeps(d: Db, u: int, delta: Num, motivo: string, referencia: Option<string>)
    requires Ledger(d)
    ensures Ledger(AdjustSpec(d, u, delta, motivo, referencia).db)
  {
    if AdjustSpec(d, u, delta, motivo, referencia).result.Ok? {
      AdjustEffects(d, u, delta, motivo, referencia);
    }
  }

  /** `resumenPorEmail(email)`: the user with that e-mail, its balance
      through `getBalance` (which may create the wallet) and its 20 newest
      movements. */
  function ResumenPorEmailSpec(d: Db, email: string): (o: Outcome<EmailStatement>)
    ensures o.result.Err? ==> o.db == d && o.result.error == BadRequest("Usuario no existe")
    ensures Valid(d) ==> (o.result.Err? <==> forall id :: id in d.users ==> d.users[id].correo != email)
    ensures o.result.Ok? ==> var id := o.result.value.userId;
      && id in d.users && d.users[id].correo == email
      && o.result.value.correo == email
      && (Valid(d) ==> forall k :: k in d.users && d.users[k].correo == email ==> id <= k)
  {
    match FindUser(d, (x: Usuario) => x.correo == email)
    case None => Outcome(Err(BadRequest("Usuario no existe")), d)
    case Some(id) =>
      var user := d.users[id];
      var d1 := Upserted(d, id);
      Outcome(Ok(EmailStatement(id, user.nombreCompleto, user.usuario, user.correo, d1.wallets[id].balance,
                                Resumen(d1.movements, id, EmailStatementTake))),
              d1)
  }

  /** The statement lists at most 20 movements, all of that user, newest
      first, and no movement of the user left out is newer than one
      listed. */
  lemma ResumenPorEmailNewestFirst(d: Db, email: string)
    requires Ledger(d)
    requires ResumenPorEmailSpec(d, email).result.Ok?
    ensures var s := ResumenPorEmailSpec(d, email).result.value;
      var ms := s.movimientos;
      && |ms| <= EmailStatementTake
      && d.users[s.userId].correo == email
      && (forall i :: 0 <= i < |ms| ==> ms[i] in d.movements && ms[i].usuarioId == s.userId)
      && (forall i, j :: 0 <= i < j < |ms| ==> ms[i].id > ms[j].id)
      && (forall k :: 0 <= k < |d.movements| && d.movements[k].usuarioId == s.userId && d.movements[k] !in ms ==>
            forall i :: 0 <= i < |ms| ==> ms[i].id > d.movements[k].id)
  {
    var s := ResumenPorEmailSpec(d, email).result.value;
    var id := s.userId;
    assert id in d.users && d.users[id].correo == email;
    assert Upserted(d, id).movements == d.movements;
    assert s.movimientos == Resumen(d.movements, id, EmailStatementTake);
    ResumenNewestFirst(d, id, EmailStatementTake);
    forall k | 0 <= k < |d.movements|
      ensures d.movements[k].id == k + 1
    {
      assert PostingOk(d.movements, k);
    }
    forall k | 0 <= k < |d.movements| && d.movements[k].usuarioId == id && d.movements[k] !in s.movimientos
      ensures forall i :: 0 <= i < |s.movimientos| ==> s.movimientos[i].id > d.movements[k].id
    {
      ResumenKeepsNewest(d.movements, id, EmailStatementTake, k);
    }
  }

  class WalletService {
    const db: Store

    constructor(db: Store)
      ensures this.db == db
    {
      this.db := db;
    }

    /** `getBalance` */
    method GetBalance(u: int) returns (saldo: int)
      modifies db
      ensures db.State() == GetBalanceSpec(old(db.State()), u).db
      ensures Ok(saldo) == GetBalanceSpec(old(db.State()), u).result
    {
      db.UpsertWallet(u);
      saldo := db.wallets[u].balance;
    }

    /** `adjust` */
    method Adjust(u: int, delta: Num, motivo: string, referencia: Option<string>) returns (r: Result<Adjusted>)
      modifies db
      ensures r == AdjustSpec(old(db.State()), u, delta, motivo, referencia).result
      ensures db.State() == AdjustSpec(old(db.State()), u, delta, motivo, referencia).db
    {
      if !IsFinite(delta) || Trunc(delta) != delta {
        assert !IsInteger(delta) by {
          if IsFinite(delta) {
            TruncFixed(delta);
          }
        }
        return Err(BadRequest("delta debe ser entero en pesos"));
      }
      TruncFixed(delta);
      var k := ToInt(delta);
      var snap := db.State();
      db.UpsertWallet(u);
      var antes := db.wallets[u].balance;
      var despues := antes + k;
      if despues < 0 {
        db.Restore(snap);
        return Err(BadRequest("Saldo insuficiente"));
      }
      db.Post(u, AdjustEntry(k, motivo, referencia), true);
      r := Ok(Adjusted(db.wallets[u].balance));
    }

    /** `resumenPorEmail` */
    method ResumenPorEmail(email: string) returns (r: Result<EmailStatement>)
      modifies db
      ensures r == ResumenPorEmailSpec(old(db.State()), email).result
      ensures db.State() == ResumenPorEmailSpec(old(db.State()), email).db
    {
      var found := db.FindFirst((x: Usuario) => x.correo == email);
      if found.None? {
        return Err(BadRequest("Usuario no existe"));
      }
      var id := found.value;
      var user := db.users[id];
      var saldo := GetBalance(id);
      var movs := Resumen(db.movements, id, EmailStatementTake);
      r := Ok(EmailStatement(id, user.nombreCompleto, user.usuario, user.correo, saldo, movs));
    }
  }
}
