/** TransferenciasService: pending recharges and withdrawals, completed
    into the ledger by `completar` or marked failed by `marcarFallida`.
    Lifecycle: PENDIENTE → COMPLETADA | FALLIDA, where only `completar`
    checks the state. */
module Transfers {
  import opened Wrappers
  import opened Js
  import opened Store

  /** A transfer row together with its id, as `create` and `update`
      return it. */
  datatype TransferRow = TransferRow(id: int, row: Transfer)

  /** What `completar` returns. */
  datatype Completed = Completed(saldoCOP: int)

  /** One element of `listarPorUsuario`. */
  datatype TransferItem = TransferItem(
    id: int,
    monto: int,
    estado: TransferState,
    motivo: Option<string>,
    completedAt: Option<int>)

  /** The listing length of `listarPorUsuario`. */
  const ListTake := 20

  /** `create({ usuarioId, monto, motivo })`: any integer amount, zero and
      negative included, stored PENDIENTE under the next id. The user id
      comes unchecked from the request body, and Prisma's Int column
      refuses one that is not an integer. */
  function CreateSpec(d: Db, usuarioId: Num, monto: Num, motivo: Option<string>): (o: Outcome<TransferRow>)
    ensures o.result.Err? ==> o.db == d
  {
    if !IsInteger(monto) then
      Outcome(Err(BadRequest("Monto debe ser entero en COP")), d)
    else if !IsInteger(usuarioId) then
      Outcome(Err(InvalidInt), d)
    else
      var t := Transfer(ToInt(usuarioId), ToInt(monto), motivo, Pendiente, None);
      Outcome(Ok(TransferRow(d.nextTransferId, t)),
              d.(transfers := d.transfers[d.nextTransferId := t], nextTransferId := d.nextTransferId + 1))
  }

  /** The movement `completar` posts for a transfer. */
  function TransferEntry(id: int, t: Transfer): Entry {
    Entry(if t.monto > 0 then Recarga else Retiro, t.monto, None, None, None, Some(id), Reason(t.motivo))
  }

  /** `completar(id)`: inside one transaction, a PENDIENTE transfer is
      applied to its user's wallet (created at 0 if missing) whatever the
      resulting balance, the version is bumped, one movement linked to the
      transfer is appended, and the transfer becomes COMPLETADA at `now`.
      The id is Number of the route parameter; Prisma refuses one that is
      not an integer in the first lookup. */
  function CompletarSpec(d: Db, id: Num, now: int): (o: Outcome<Completed>)
    ensures o.result.Err? ==> o.db == d
  {
    if !IsInteger(id) then
      Outcome(Err(InvalidInt), d)
    else if ToInt(id) !in d.transfers then
      Outcome(Err(NotFound("Transferencia no encontrada")), d)
    else
      var tid := ToInt(id);
      var t := d.transfers[tid];
      if t.estado != Pendiente then
        Outcome(Err(BadRequest("Ya procesada")), d)
      else
        var d1 := Upserted(d, t.usuarioId);
        var d2 := Posted(d1, t.usuarioId, TransferEntry(tid, t), true);
        Outcome(Ok(Completed(d1.wallets[t.usuarioId].balance + t.monto)),
                d2.(transfers := d2.transfers[tid := t.(estado := Completada, completedAt := Some(now))]))
  }

  /** `marcarFallida(id)`: an update by id with no state check; an id
      that is not an integer is refused by Prisma, and a missing one is
      Prisma's "record not found". */
  function MarcarFallidaSpec(d: Db, id: Num): (o: Outcome<TransferRow>)
    ensures o.result.Err? ==> o.db == d
  {
    if !IsInteger(id) then
      Outcome(Err(InvalidInt), d)
    else if ToInt(id) !in d.transfers then
      Outcome(Err(RecordNotFound), d)
    else
      var tid := ToInt(id);
      var t := d.transfers[tid].(estado := Fallida);
      Outcome(Ok(TransferRow(tid, t)), d.(transfers := d.transfers[tid := t]))
  }

  /** The ids below `hi` of the user's transfers, highest first, at most
      `take` of them. */
  function ListDesc(ts: map<int, Transfer>, u: int, hi: int, take: nat): (r: seq<int>)
    ensures |r| <= take
    ensures forall i :: 0 <= i < |r| ==> 1 <= r[i] < hi && r[i] in ts && ts[r[i]].usuarioId == u
    ensures forall i, j :: 0 <= i < j < |r| ==> r[i] > r[j]
    decreases hi
  {
    if hi <= 1 || take == 0 then []
    else if hi - 1 in ts && ts[hi - 1].usuarioId == u then [hi - 1] + ListDesc(ts, u, hi - 1, take - 1)
    else ListDesc(ts, u, hi - 1, take)
  }

  function Item(id: int, t: Transfer): TransferItem {
    TransferItem(id, t.monto, t.estado, t.motivo, t.completedAt)
  }

  /** The listed rows of the transfers `ids`. */
  function Items(ts: map<int, Transfer>, ids: seq<int>): (r: seq<TransferItem>)
    requires forall i :: 0 <= i < |ids| ==> ids[i] in ts
    ensures |r| == |ids|
  {
    seq(|ids|, i requires 0 <= i < |ids| => Item(ids[i], ts[ids[i]]))
  }

  /** `listarPorUsuario(usuarioId)`: the user's 20 newest transfers,
      newest first (creation order is id order); a user id that is not an
      integer is refused by Prisma's Int filter. */
  function ListarPorUsuarioSpec(d: Db, usuarioId: Num): (r: Result<seq<TransferItem>>)
    ensures r.Err? <==> !IsInteger(usuarioId)
    ensures r.Err? ==> r.error == InvalidInt
    ensures r.Ok? ==> |r.value| <= ListTake
  {
    if !IsInteger(usuarioId) then Err(InvalidInt)
    else
      Ok(Items(d.transfers, ListDesc(d.transfers, ToInt(usuarioId), d.nextTransferId, ListTake)))
  }

  // ---------------------------------------------------------------------
  // Properties
  // ---------------------------------------------------------------------

  /** `create` refuses a non-integer amount, then a non-integer user id;
      otherwise it adds one PENDIENTE transfer under a fresh id and touches
      no wallet or movement. */
  lemma CreateEffects(d: Db, usuarioId: Num, monto: Num, motivo: Option<string>)
    requires Valid(d)
    ensures var o := CreateSpec(d, usuarioId, monto, motivo);
      && (o.result.Err? <==> !IsInteger(monto) || !IsInteger(usuarioId))
      && (!IsInteger(monto) ==> o.result.error == BadRequest("Monto debe ser entero en COP"))
      && (IsInteger(monto) && !IsInteger(usuarioId) ==> o.result.error == InvalidInt)
      && (o.result.Ok? ==>
            var id := o.result.value.id;
            && id !in d.transfers
            && o.db.transfers == d.transfers[id := Transfer(ToInt(usuarioId), ToInt(monto), motivo, Pendiente, None)]
            && o.db.wallets == d.wallets && o.db.movements == d.movements
            && Valid(o.db))
  {
  }

  /** A negative or zero amount is accepted by `create`. */
  lemma CreateAcceptsNonPositive(d: Db, usuarioId: int, k: int, motivo: Option<string>)
    requires k <= 0
    ensures CreateSpec(d, FromInt(usuarioId), FromInt(k), motivo).result.Ok?
    ensures CreateSpec(d, FromInt(usuarioId), FromInt(k), motivo).result.value.row.monto == k
  {
    assert IsInteger(FromInt(k)) && IsInteger(FromInt(usuarioId));
  }

  /** `completar` fails with Prisma's error for an id that is not an
      integer, with NotFound for an unknown id and with 'Ya procesada' for
      a transfer that is not PENDIENTE; all leave the database unchanged,
      and those are its only failures. */
  lemma CompletarRejects(d: Db, id: Num, now: int)
    ensures var o := CompletarSpec(d, id, now);
      && (!IsInteger(id) ==> o == Outcome(Err(InvalidInt), d))
      && (IsInteger(id) && ToInt(id) !in d.transfers ==> o == Outcome(Err(NotFound("Transferencia no encontrada")), d))
      && (IsInteger(id) && ToInt(id) in d.transfers && d.transfers[ToInt(id)].estado != Pendiente ==>
            o == Outcome(Err(BadRequest("Ya procesada")), d))
      && (o.result.Ok? <==> IsInteger(id) && ToInt(id) in d.transfers && d.transfers[ToInt(id)].estado == Pendiente)
  {
  }

  /** A completed transfer moves the balance by exactly its amount, bumps
      the version, appends one movement (RECARGA for a positive amount,
      RETIRO otherwise) linked to the transfer and carrying its reason,
      marks it COMPLETADA at `now`, and keeps the ledger invariant. */
  lemma CompletarEffects(d: Db, id: int, now: int)
    requires Ledger(d)
    requires CompletarSpec(d, FromInt(id), now).result.Ok?
    ensures var o := CompletarSpec(d, FromInt(id), now);
      var t := d.transfers[id];
      var u := t.usuarioId;
      var w := Upserted(d, u).wallets[u];
      && o.result.value.saldoCOP == w.balance + t.monto == o.db.wallets[u].balance
      && o.db.wallets[u].version == w.version + 1
      && o.db.movements == d.movements + [Movement(|d.movements| + 1, u, w.balance, w.balance + t.monto,
                                                   Entry(if t.monto > 0 then Recarga else Retiro, t.monto, None, None, None,
                                                         Some(id), Reason(t.motivo)))]
      && o.db.transfers == d.transfers[id := Transfer(u, t.monto, t.motivo, Completada, Some(now))]
      && (forall v :: v != u && v in d.wallets ==> v in o.db.wallets && o.db.wallets[v] == d.wallets[v])
      && o.db.bets == d.bets && o.db.rounds == d.rounds
      && Ledger(o.db)
  {
    var t := d.transfers[id];
    var u := t.usuarioId;
    assert ToInt(FromInt(id)) == id;
    var d1 := Upserted(d, u);
    var d2 := Posted(d1, u, TransferEntry(id, t), true);
    assert CompletarSpec(d, FromInt(id), now)
        == Outcome(Ok(Completed(d1.wallets[u].balance + t.monto)),
                   d2.(transfers := d2.transfers[id := t.(estado := Completada, completedAt := Some(now))]));
    UpsertedLedger(d, u);
    PostedLedger(d1, u, TransferEntry(id, t), true);
  }

  /** There is no funds check: a pending withdrawal larger than the
      balance still completes and leaves the wallet below zero. */
  lemma CompletarOverdraws(d: Db, id: int, now: int)
    requires Ledger(d)
    requires id in d.transfers && d.transfers[id].estado == Pendiente
    requires Upserted(d, d.transfers[id].usuarioId).wallets[d.transfers[id].usuarioId].balance + d.transfers[id].monto < 0
    ensures CompletarSpec(d, FromInt(id), now).result.Ok?
    ensures !Solvent(CompletarSpec(d, FromInt(id), now).db)
  {
    assert ToInt(FromInt(id)) == id;
    CompletarEffects(d, id, now);
  }

  /** A second `completar` of the same transfer is refused and changes
      nothing. */
  lemma CompletarTwice(d: Db, id: Num, now: int, now2: int)
    requires CompletarSpec(d, id, now).result.Ok?
    ensures var d' := CompletarSpec(d, id, now).db;
      CompletarSpec(d', id, now2) == Outcome(Err(BadRequest("Ya procesada")), d')
  {
  }

  /** `marcarFallida` fails only for an id that is not an integer or is
      unknown; otherwise it sets FALLIDA from any state, COMPLETADA
      included, keeps the rest of the row, and touches no wallet or
      movement. */
  lemma MarcarFallidaEffects(d: Db, id: Num)
    ensures var o := MarcarFallidaSpec(d, id);
      && (o.result.Err? <==> !IsInteger(id) || ToInt(id) !in d.transfers)
      && (o.result.Err? ==> o.result.error == if IsInteger(id) then RecordNotFound else InvalidInt)
      && (o.result.Ok? ==>
            var tid := ToInt(id);
            && o.result.value.id == tid
            && o.db.transfers == d.transfers[tid := d.transfers[tid].(estado := Fallida)]
            && o.db.wallets == d.wallets && o.db.movements == d.movements
            && o.db.bets == d.bets && o.db.rounds == d.rounds && o.db.users == d.users)
  {
  }

  /** Marking a completed transfer failed leaves its posted movement and
      the balance it produced in place, and a failed transfer can no
      longer be completed. */
  lemma FallidaAfterCompletar(d: Db, id: Num, now: int, now2: int)
    requires CompletarSpec(d, id, now).result.Ok?
    ensures var d1 := CompletarSpec(d, id, now).db;
      var d2 := MarcarFallidaSpec(d1, id).db;
      && d2.transfers[ToInt(id)].estado == Fallida
      && d2.movements == d1.movements && d2.wallets == d1.wallets
      && |d2.movements| == |d.movements| + 1
      && CompletarSpec(d2, id, now2).result == Err(BadRequest("Ya procesada"))
  {
  }

  /** The listing of an integral user id holds at most 20 of the user's
      transfers, newest first: every transfer of the user it leaves out is
      older than all it lists, and, when shorter than 20, it lists every
      one of them. */
  lemma ListarPorUsuarioComplete(d: Db, u: int)
    requires Valid(d)
    ensures var ids := ListDesc(d.transfers, u, d.nextTransferId, ListTake);
      var r := ListarPorUsuarioSpec(d, FromInt(u));
      && r.Ok? && |r.value| == |ids|
      && (forall i :: 0 <= i < |ids| ==> r.value[i].id == ids[i] && d.transfers[ids[i]].usuarioId == u)
      && (forall i, j :: 0 <= i < j < |ids| ==> ids[i] > ids[j])
      && (forall id :: id in d.transfers && d.transfers[id].usuarioId == u && id !in ids ==>
            forall i :: 0 <= i < |ids| ==> id < ids[i])
      && (|ids| < ListTake ==> forall id :: id in d.transfers && d.transfers[id].usuarioId == u ==> id in ids)
  {
    assert ToInt(FromInt(u)) == u;
    ListDescComplete(d.transfers, u, d.nextTransferId, ListTake);
  }

  /** Below the bound `hi`, a listing leaves out only transfers of the
      user older than every one it lists, and none at all when it is
      shorter than its limit. */
  lemma ListDescComplete(ts: map<int, Transfer>, u: int, hi: int, take: nat)
    requires forall id :: id in ts ==> 1 <= id
    ensures forall id :: id in ts && id < hi && ts[id].usuarioId == u && id !in ListDesc(ts, u, hi, take) ==>
              forall i :: 0 <= i < |ListDesc(ts, u, hi, take)| ==> id < ListDesc(ts, u, hi, take)[i]
    ensures |ListDesc(ts, u, hi, take)| < take ==>
              forall id :: id in ts && id < hi && ts[id].usuarioId == u ==> id in ListDesc(ts, u, hi, take)
  {
    forall id | id in ts && id < hi && ts[id].usuarioId == u && id !in ListDesc(ts, u, hi, take)
      ensures forall i :: 0 <= i < |ListDesc(ts, u, hi, take)| ==> id < ListDesc(ts, u, hi, take)[i]
    {
      ListDescOlder(ts, u, hi, take, id);
    }
    ListDescShort(ts, u, hi, take);
  }

  lemma {:induction false} ListDescOlder(ts: map<int, Transfer>, u: int, hi: int, take: nat, id: int)
    requires id in ts && id < hi && ts[id].usuarioId == u && id !in ListDesc(ts, u, hi, take)
    ensures forall i :: 0 <= i < |ListDesc(ts, u, hi, take)| ==> id < ListDesc(ts, u, hi, take)[i]
    decreases hi
  {
    if hi > 1 && take != 0 {
      var r := ListDesc(ts, u, hi, take);
      if hi - 1 in ts && ts[hi - 1].usuarioId == u {
        assert r == [hi - 1] + ListDesc(ts, u, hi - 1, take - 1);
        assert id != hi - 1 && id !in ListDesc(ts, u, hi - 1, take - 1);
        ListDescOlder(ts, u, hi - 1, take - 1, id);
      } else {
        assert id != hi - 1;
        ListDescOlder(ts, u, hi - 1, take, id);
      }
    }
  }

  lemma {:induction false} ListDescShort(ts: map<int, Transfer>, u: int, hi: int, take: nat)
    requires forall id :: id in ts ==> 1 <= id
    ensures |ListDesc(ts, u, hi, take)| < take ==>
              forall id :: id in ts && id < hi && ts[id].usuarioId == u ==> id in ListDesc(ts, u, hi, take)
    decreases hi
  {
    if hi > 1 && take != 0 {
      if hi - 1 in ts && ts[hi - 1].usuarioId == u {
        ListDescShort(ts, u, hi - 1, take - 1);
      } else {
        ListDescShort(ts, u, hi - 1, take);
      }
    }
  }

  class TransferenciasService {
    const db: Store

    constructor(db: Store)
      ensures this.db == db
    {
      this.db := db;
    }

    /** `create` */
    method Create(usuarioId: Num, monto: Num, motivo: Option<string>) returns (r: Result<TransferRow>)
      modifies db
      ensures var o := CreateSpec(old(db.State()), usuarioId, monto, motivo);
        r == o.result && db.State() == o.db
    {
      if !IsInteger(monto) {
        return Err(BadRequest("Monto debe ser entero en COP"));
      }
      if !IsInteger(usuarioId) {
        return Err(InvalidInt);
      }
      var t := Transfer(ToInt(usuarioId), ToInt(monto), motivo, Pendiente, None);
      var id := db.nextTransferId;
      db.transfers := db.transfers[id := t];
      db.nextTransferId := id + 1;
      r := Ok(TransferRow(id, t));
    }

    /** `completar` */
    method Completar(id: Num, now: int) returns (r: Result<Completed>)
      modifies db
      ensures var o := CompletarSpec(old(db.State()), id, now);
        r == o.result && db.State() == o.db
    {
      if !IsInteger(id) {
        return Err(InvalidInt);
      }
      var tid := ToInt(id);
      if tid !in db.transfers {
        return Err(NotFound("Transferencia no encontrada"));
      }
      var t := db.transfers[tid];
      if t.estado != Pendiente {
        return Err(BadRequest("Ya procesada"));
      }
      db.UpsertWallet(t.usuarioId);
      var saldoAntes := db.wallets[t.usuarioId].balance;
      db.Post(t.usuarioId, TransferEntry(tid, t), true);
      db.transfers := db.transfers[tid := t.(estado := Completada, completedAt := Some(now))];
      r := Ok(Completed(saldoAntes + t.monto));
    }

    /** `marcarFallida` */
    method MarcarFallida(id: Num) returns (r: Result<TransferRow>)
      modifies db
      ensures var o := MarcarFallidaSpec(old(db.State()), id);
        r == o.result && db.State() == o.db
    {
      if !IsInteger(id) {
        return Err(InvalidInt);
      }
      var tid := ToInt(id);
      if tid !in db.transfers {
        return Err(RecordNotFound);
      }
      var t := db.transfers[tid].(estado := Fallida);
      db.transfers := db.transfers[tid := t];
      r := Ok(TransferRow(tid, t));
    }

    /** `listarPorUsuario`: walks the ids downwards from the newest. */
    method ListarPorUsuario(usuarioId: Num) returns (r: Result<seq<TransferItem>>)
      ensures r == ListarPorUsuarioSpec(db.State(), usuarioId)
    {
      if !IsInteger(usuarioId) {
        return Err(InvalidInt);
      }
      var u := ToInt(usuarioId);
      var ts := db.transfers;
      var ids: seq<int> := [];
      var hi := db.nextTransferId;
      while hi > 1 && |ids| < ListTake
        invariant |ids| <= ListTake
        invariant ids + ListDesc(ts, u, hi, ListTake - |ids|) == ListDesc(ts, u, db.nextTransferId, ListTake)
        decreases hi
      {
        if hi - 1 in ts && ts[hi - 1].usuarioId == u {
          ids := ids + [hi - 1];
        }
        hi := hi - 1;
      }
      assert ids == ListDesc(ts, u, db.nextTransferId, ListTake);
      r := Ok(Items(ts, ids));
    }
  }
}
