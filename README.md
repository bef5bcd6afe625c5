# Casino backend and sign-in front end, modelled in Dafny

This project models the core of a casino web application: a NestJS
backend that keeps a peso wallet ledger for each user and runs a crash
game (DronX) on top of it, and the React front end's sign-in and sign-up
forms, its iframe message hub and its game catalogue.

Backend:

- **Ledger** (`store.dfy`, `money.dfy`): the Prisma tables as one
  `Store` class. Every balance change goes through one posting rule:
  read the balance inside the transaction (`saldoAntes`), record
  `saldoDespues = saldoAntes + monto` on a new movement, and set the
  wallet to `saldoDespues`. `Store.LedgerChain` and its companions prove
  that the movements of a wallet chain up, so a balance is the sum of
  its postings. Money helpers (`assertPesosEnteros`, `toDec`,
  `decToNumber`, `addDec`…`divDec`) work on exact decimals.
- **Bets** (`bet_service.dfy`): a bet is `PLACED → CASHED | LOST`.
  Placement debits the stake, cash-out credits `floor(stake·x)`, and
  settlement of a crashed round marks its open bets lost. Each method is
  one transaction: on any failure the database is restored to the state
  it had when the method started.
- **Wallets, ledger and transfers** (`wallet_service.dfy`,
  `ledger_service.dfy`, `transferencias_service.dfy`): signed
  adjustments, the generic `applyMovement`, statements, and transfers
  (`PENDIENTE → COMPLETADA | FALLIDA`).
- **Rounds** (`crashx_service.dfy`, `crash_service.dfy`): `RUN →
  CRASHED` with the crash point stored in hundredths, followed by loss
  settlement.
- **Bet routes** (`bet_controller.dfy`): request parsing in the bet
  controller.
- **Users and auth** (`usuarios_service.dfy`, `auth_controller.dfy`,
  `firebase_guard.dfy`, `roles_guard.dfy`): username generation, the
  `link` provisioning, and the authentication and role guards.
- **Socket gateway** (`juegos_gateway.dfy`): rooms, a throttle, and a
  windowed rate limiter.
- **GranSpin** (`granspin.dfy`): the slot payout.

Front end:

- **Phone normalisers** (`phone.dfy`, `auth_modal.dfy`,
  `register_form.dfy`): the Colombian mobile-number normalisers of both
  sign-up forms, to the E.164 form `+57 3xx xxx xxxx` (ITU-T E.164), and
  their field checks.
- **Error mapping** (`forms.dfy`, `login.dfy`): the Firebase error
  mapping and the sign-in validator. `Forms.PwdScore` models the
  strength counter, which AuthModal.tsx (lines 372-379) and
  RegisterForm.tsx (lines 84-91) both define identically.
- **Parent bus** (`parent_bus.dfy`): the parent page's message hub, a
  child registry with first-registered leader election, a crash relay
  and a stale sweep.
- **Child auth bridge** (`child_auth_bridge.dfy`): origin allow-listing
  with wildcard hosts, as in RFC 6454 origins.
- **Game catalogue** (`games.dfy`).

Conventions:

- **Specs and outcomes.** Each backend operation has a pure
  specification function `XSpec(d, …)` over a database snapshot `Db`. It
  returns the operation's result together with the new snapshot, and a
  failing outcome always returns the snapshot unchanged. The service
  classes hold the store (as NestJS injects `PrismaService`), and each
  method is proved to return exactly the spec's result and to leave
  exactly the spec's database. The lemmas next to each spec state what
  the source promises about it.
- **Errors.** A thrown exception is an `Err` carrying the NestJS
  exception kind and message (`wrappers.dfy`).
- **JavaScript values** (`js.dfy`):
  - numbers are `Num`: an exact real, or NaN or ±Infinity;
  - dynamically typed inputs are `JsValue`;
  - `String(…)` (plain decimal, and exponent form such as "1e+21" from
    10^21 on and "5e-7" below 10^-6), `Number(…)` (decimal literals with
    an exponent, and `0x`, `0o` and `0b` literals), `trim`, `toFixed(2)`
    and case mapping are written out.
- **External services become parameters**, each named where it is used:
  - Firebase token verification;
  - the user lookup of the token's e-mail;
  - SHA-256 (FIPS 180-4);
  - the clock;
  - URL parsing;
  - the stored session;
  - the iframe lookup;
  - a timestamp string.

Where the code and an idealised design differ, the model follows the
code:

- `adjust` accepts a zero delta.
- `applyMovement` does not create a missing wallet.
- `completar` has no insufficient-funds check, so a negative transfer
  can overdraw (`Transfers.CompletarOverdraws`).
- `marcarFallida` marks any transfer failed, even a completed one
  (`Transfers.FallidaAfterCompletar`).
- DronX `endRound` re-ends an already crashed round
  (`CrashX.EndRoundReEnds`).
- Duplicate-bet detection rejects a second bet on the same slot
  whatever state the first is in.
- The older `endRound` guards with `!(finalX > 0)`, which lets
  `+Infinity` through, and it is stored as such
  (`Crash.EndRoundAcceptsInfinity`).
- In parentBus an empty leader id is falsy, so the next registration
  takes the lead from it (`ParentBus.Bus.RegisterChild`); the leader is
  stable only once it is a non-empty id.

## Model

| member | source | states |
|---|---|---|
| Money.AssertPesosEnteros | apps/backend/src/common/money.ts:20-24 | no error exactly for a finite integer; otherwise the error "<name> debe ser un entero en pesos" |
| Money.DecimalFromString | apps/backend/src/common/money.ts:41 | a digit-led numeric string becomes the decimal its digits denote |
| Js.UnsignedChars | apps/backend/src/common/money.ts:41 | a string the decimal constructor accepts as an unsigned literal holds only digits, a point, an exponent mark and signs, so no white space |
| Money.ToDec | apps/backend/src/common/money.ts:27-42 | a decimal passes through, a bigint converts exactly, a number converts exactly when it is a finite integer and fails otherwise |
| Money.DecToNumber | apps/backend/src/common/money.ts:45-53 | null and undefined give 0; a conversion error propagates; a success is an integer whose decimal is the input's decimal |
| Money.DecToNumberToDec | apps/backend/src/common/money.ts:27-53 | every integer number of pesos survives toDec and decToNumber unchanged |
| Money.Add | apps/backend/src/common/money.ts:56-58 | a finite result comes only from finite operands, and then it is their sum |
| Money.DecimalLaws | apps/backend/src/common/money.ts:56-75 | on every operand, infinities and NaN included: addition and multiplication commute, zero is the additive identity, NaN absorbs, and an infinity minus itself is NaN |
| Money.Sub | apps/backend/src/common/money.ts:61-63 | on finite decimals subtraction undoes addition (adding b back gives a), and the difference is zero exactly when the operands are equal |
| Money.Mul | apps/backend/src/common/money.ts:66-68 | the result is finite exactly when both operands are, and then it is their product |
| Money.Div | apps/backend/src/common/money.ts:71-75 | on finite decimals with a non-zero divisor division undoes multiplication (multiplying back gives a); a finite number divided by zero is never finite |
| Money.AddDec | apps/backend/src/common/money.ts:56-58 | both operands converted, then added; the first operand's conversion error wins |
| Money.SubDec | apps/backend/src/common/money.ts:61-63 | both operands converted, then subtracted; the first operand's conversion error wins |
| Money.MulDec | apps/backend/src/common/money.ts:66-68 | both operands converted, then multiplied |
| Money.DivDec | apps/backend/src/common/money.ts:71-75 | a zero divisor fails with "División por cero en Decimal"; a success comes from converted operands and a non-zero divisor |
| Money.PesosArithmetic | apps/backend/src/common/money.ts:56-63 | integer pesos add and subtract exactly through addDec and subDec |
| Store.FindUserFrom | apps/backend/src/modules/usuarios/usuarios.service.ts:186-189 | the lowest id in the range whose row matches the filter, and no lower matching id; none when no row in range matches |
| Store.FindUser | apps/backend/src/modules/usuarios/usuarios.service.ts:186-189 | a found row matches the filter and has the lowest such id; nothing is found exactly when no row matches |
| Store.FindUserUnique | apps/backend/src/modules/usuarios/usuarios.service.ts:186-189 | a filter only one row satisfies finds that row |
| Store.Upserted | apps/backend/src/bet/bet.service.ts:15-19 | after the upsert the user has a wallet |
| Store.UpsertedLedger | apps/backend/src/bet/bet.service.ts:15-19 | the upsert keeps the ledger invariant, leaves an existing wallet alone and creates a missing one at balance 0 |
| Store.PostedLedger | apps/backend/src/bet/bet.service.ts:46-66 | a posting keeps the ledger invariant: saldoDespues = saldoAntes + monto, saldoAntes is the balance read, and the wallet is set to saldoDespues |
| Store.SumDeltasAppend | apps/backend/src/bet/bet.service.ts:50-65 | appending a movement adds its amount to its own user's sum only |
| Store.SumDeltasAbsent | apps/backend/src/bet/bet.service.ts:15-19 | a user without movements sums to 0, the balance a new wallet gets |
| Store.LedgerChain | apps/backend/src/bet/bet.service.ts:46-56 | consecutive movements of one user chain: each saldoAntes is the previous saldoDespues |
| Store.SumDeltasGap | apps/backend/src/bet/bet.service.ts:46-56 | other users' movements do not change a user's running sum |
| Store.SumDeltasSplit | apps/backend/src/bet/bet.service.ts:46-56 | the running sum grows by exactly the user's own movement |
| Store.Resumen | apps/backend/src/wallet/wallet.service.ts:104-109 | at most `take` movements, all of the user's and all from the log |
| Store.ResumenNewestFirst | apps/backend/src/wallet/wallet.service.ts:104-109 | the statement of a correctly posted log is strictly newest first |
| Store.ResumenIds | apps/backend/src/wallet/wallet.service.ts:104-109 | statement ids are log ids and strictly decreasing |
| Store.ResumenKeepsNewest | apps/backend/src/wallet/wallet.service.ts:104-109 | every movement of the user left out of the statement is older than every one shown |
| Store.Store.FindFirst | apps/backend/src/modules/usuarios/usuarios.service.ts:186-189 | returns the lowest matching id, changing nothing |
| Store.Store.Restore | apps/backend/src/bet/bet.service.ts:86 | a failed transaction puts back the snapshot it started from |
| Store.Store.UpsertWallet | apps/backend/src/bet/bet.service.ts:15-19 | the new state is the upsert of the old one |
| Store.Store.Post | apps/backend/src/bet/bet.service.ts:50-65 | the new state is the posting of the old one |
| Bets.NormalizeSlotIdempotent | apps/backend/src/bet/bet.service.ts:83 | normalising a normalised slot changes nothing |
| Bets.NormalizeSlotDefault | apps/backend/src/bet/bet.service.ts:83 | a missing slot normalises to "A" |
| Bets.NormalizeSlotPadded | apps/backend/src/bet/bet.service.ts:83 | padding and letter case of a slot do not matter: " l " and "L" normalise alike |
| Bets.IntToStringChars | apps/backend/src/bet/bet.service.ts:84 | the round-id part of a reference holds only digits and a minus sign, never a colon |
| Bets.IndexOfAt | apps/backend/src/bet/bet.service.ts:84 | the first occurrence of a character is the one with no earlier occurrence |
| Bets.FirstColon | apps/backend/src/bet/bet.service.ts:84 | in a reference the first colon follows the round id |
| Bets.BetReferenceInjective | apps/backend/src/bet/bet.service.ts:83-84 | a reference determines its round and its slot, so bets of one user in one round collide exactly when their normalised slots are equal |
| Bets.SaldoOf | apps/backend/src/bet/bet.service.ts:14-26 | the stored balance, or 0 for a user whose wallet the upsert creates |
| Bets.SettleBets | apps/backend/src/bet/bet.service.ts:269-272 | exactly the round's PLACED bets become LOST with payout 0; every other bet is unchanged |
| Bets.SettleBetsSettles | apps/backend/src/bet/bet.service.ts:263-272 | after settlement the round has no PLACED bet left, other rounds' open bets are untouched and bet shapes are kept |
| Bets.CashoutPrize | apps/backend/src/bet/bet.service.ts:191 | the prize is floor(stake * x), and at least the stake when the stake is non-negative and x >= 1 |
| Bets.CashoutProfit | apps/backend/src/bet/bet.service.ts:192 | the profit is never negative and is exactly prize - stake when the prize is at least the stake |
| Bets.PlacedDbEffects | apps/backend/src/bet/bet.service.ts:106-133 | a placement adds one PLACED bet with the stake and the slot reference, one DronX row, and one APUESTA movement of minus the stake with both snapshots; only the bettor's wallet changes |
| Bets.PlacedDbKeeps | apps/backend/src/bet/bet.service.ts:106-133 | a placement keeps the ledger, key and bet-shape invariants |
| Bets.PlaceCrashBetSpec | apps/backend/src/bet/bet.service.ts:70-173 | a rejected placement leaves the database as it was |
| Bets.PlaceCrashBetRejects | apps/backend/src/bet/bet.service.ts:78-104 | rejections for a non-finite or non-positive amount, a missing round, a round not in RUN, a stake above the balance, and a duplicate slot, with their messages and in that order |
| Bets.PlaceCrashBetEffects | apps/backend/src/bet/bet.service.ts:106-133 | a successful placement writes exactly one bet, one DronX row and one APUESTA movement; the balance drops by exactly the stake and stays non-negative |
| Bets.PlaceCrashBetKeeps | apps/backend/src/bet/bet.service.ts:86-157 | placement keeps the ledger, key and bet-shape invariants |
| Bets.PlaceCrashBetSameSlot | apps/backend/src/bet/bet.service.ts:100-104 | a second bet in the same slot of a round fails with "Ya tienes una apuesta activa en este slot" whatever became of the first |
| Bets.PlaceCrashBetBlocksOnlyItsSlot | apps/backend/src/bet/bet.service.ts:83-104 | a placement blocks its own slot of its round and no other |
| Bets.CashoutSpec | apps/backend/src/bet/bet.service.ts:175-254 | a failed cash-out leaves the database as it was |
| Bets.CashoutEffects | apps/backend/src/bet/bet.service.ts:190-213 | cashing out a PLACED bet at a finite x >= 1 makes it CASHED with payout floor(stake * x), appends one PREMIO movement of +prize and raises the balance by the prize |
| Bets.CashoutKeeps | apps/backend/src/bet/bet.service.ts:179-236 | cash-out keeps the ledger, key and bet-shape invariants |
| Bets.CashoutTwice | apps/backend/src/bet/bet.service.ts:186-188 | a second cash-out of the same bet answers `{ok: true, already: true}` and changes nothing |
| Bets.SettleRoundLossesSpec | apps/backend/src/bet/bet.service.ts:256-282 | a rejected settlement leaves the database as it was |
| Bets.SettleRoundLossesEffects | apps/backend/src/bet/bet.service.ts:263-280 | exactly the round's PLACED bets become LOST with payout 0, nothing is posted, the round is CRASHED with finalX at two decimals, and the count is the number settled |
| Bets.SettleRoundLossesTwice | apps/backend/src/bet/bet.service.ts:263-273 | settling a round again settles nothing more and counts 0 |
| Bets.SettleRoundLossesKeeps | apps/backend/src/bet/bet.service.ts:262-281 | settlement keeps the ledger, key and bet-shape invariants |
| Bets.BetService.GetSaldoPesosTx | apps/backend/src/bet/bet.service.ts:14-26 | upserts the wallet at 0 and returns the balance it then holds |
| Bets.BetService.CrearMovimientoTx | apps/backend/src/bet/bet.service.ts:35-67 | a result below zero fails with "Saldo insuficiente"; otherwise returns saldoAntes and saldoAntes + monto, and the state is the posting |
| Bets.BetService.PlaceCrashBet | apps/backend/src/bet/bet.service.ts:70-173 | result and new state are those of PlaceCrashBetSpec |
| Bets.BetService.PlaceInRound | apps/backend/src/bet/bet.service.ts:86-173 | once the amount and the round have passed, result and new state are those of PlaceCrashBetSpec |
| Bets.BetService.Cashout | apps/backend/src/bet/bet.service.ts:175-254 | result and new state are those of CashoutSpec |
| Bets.BetService.SettleRoundLosses | apps/backend/src/bet/bet.service.ts:256-282 | result and new state are those of SettleRoundLossesSpec |
| Wallets.AdjustSpec | apps/backend/src/wallet/wallet.service.ts:29-93 | a rejected adjustment leaves the database as it was |
| Wallets.GetBalanceEffects | apps/backend/src/wallet/wallet.service.ts:14-23 | returns the stored balance, or 0 after creating the wallet; an existing wallet is left as it was |
| Wallets.AdjustRejects | apps/backend/src/wallet/wallet.service.ts:35-55 | a delta that is not a finite integer fails with "delta debe ser entero en pesos", a result below zero with "Saldo insuficiente"; both leave the database unchanged |
| Wallets.AdjustEffects | apps/backend/src/wallet/wallet.service.ts:40-80 | success sets the balance to the old one plus the delta, bumps the version by one and appends exactly one RECARGA or RETIRO movement with both snapshots, the reference when non-empty and the reason |
| Wallets.AdjustZero | apps/backend/src/wallet/wallet.service.ts:35-66 | a zero delta is accepted: a RECARGA movement of 0 is appended and the version bumped, the balance is unchanged |
| Wallets.AdjustKeeps | apps/backend/src/wallet/wallet.service.ts:40-80 | adjust keeps the ledger invariant whatever happens |
| Wallets.ResumenPorEmailSpec | apps/backend/src/wallet/wallet.service.ts:95-128 | it fails exactly when no user row has that correo, then with BadRequest "Usuario no existe" and nothing changed; otherwise the statement is of the row with that correo (the lowest id should several match) |
| Wallets.ResumenPorEmailNewestFirst | apps/backend/src/wallet/wallet.service.ts:102-127 | at most 20 movements, all the user's, newest first, and none left out is newer than one listed |
| Wallets.WalletService.GetBalance | apps/backend/src/wallet/wallet.service.ts:14-23 | result and new state are those of the upsert-then-read specification |
| Wallets.WalletService.Adjust | apps/backend/src/wallet/wallet.service.ts:29-93 | result and new state are those of AdjustSpec |
| Wallets.WalletService.ResumenPorEmail | apps/backend/src/wallet/wallet.service.ts:95-128 | result and new state are those of ResumenPorEmailSpec |
| Ledgers.GetBalancePesosSpec | apps/backend/src/modules/ledger/ledger.service.ts:16-22 | the stored balance, or 0 when the user has no wallet, without creating one |
| Ledgers.Lines | apps/backend/src/modules/ledger/ledger.service.ts:41-46 | one statement line per movement, in order |
| Ledgers.ParseTrimmed | apps/backend/src/modules/ledger/ledger.service.ts:51 | Number(text) only sees the trimmed text |
| Ledgers.NumericIdCanonical | apps/backend/src/modules/ledger/ledger.service.ts:51-52 | an identifier is a numeric id exactly when, trimmed, it is String(n) of some integer n: its plain decimal digits below 10^21 in magnitude, its exponent form ("1e+21") from there on |
| Ledgers.NumericIdPadded | apps/backend/src/modules/ledger/ledger.service.ts:51-52 | for every integer n, String(n) with a space on each side is the numeric identifier n (" 42 " is the id 42, " 1e+21 " the id 10^21) |
| Ledgers.NumericIdPlainDigits | apps/backend/src/modules/ledger/ledger.service.ts:51-52 | the plain decimal digits of an integer are a numeric id exactly when its magnitude is below 10^21; "1000000000000000000000" is looked up as a name |
| Ledgers.NumericIdRejects | apps/backend/src/modules/ledger/ledger.service.ts:51-52 | digits after a leading "0", digits after a "+", and the empty identifier are all looked up as names although Number of each is an integer |
| Ledgers.IdentifierLookupFinds | apps/backend/src/modules/ledger/ledger.service.ts:54-62 | a numeric identifier finds exactly the user with that id, and String of that id is the trimmed identifier; any other finds a user whose correo or usuario is the trimmed identifier (the lowest id among them, see Left out) and None exactly when there is none |
| Ledgers.StatementOfShape | apps/backend/src/modules/ledger/ledger.service.ts:64-80 | the statement has the user's id, its balance (0 without a wallet) and at most ten of its own movements, newest first |
| Ledgers.ResumenByUserIdFinds | apps/backend/src/modules/ledger/ledger.service.ts:83-107 | fails with "Usuario no encontrado" exactly for an unknown id; otherwise the user's statement |
| Ledgers.ResumenByFirebaseUidFinds | apps/backend/src/modules/ledger/ledger.service.ts:24-48 | fails exactly when no user has that uid; otherwise that user's statement |
| Ledgers.ApplyMovementSpec | apps/backend/src/modules/ledger/ledger.service.ts:109-161 | a rejected movement leaves the database as it was |
| Ledgers.MovementRefusal | apps/backend/src/modules/ledger/ledger.service.ts:128-140 | when no check refuses, the delta is an integer and the wallet exists |
| Ledgers.ApplyMovementRejects | apps/backend/src/modules/ledger/ledger.service.ts:128-140 | a zero or non-integer delta, a missing wallet and a result below zero are rejected with their messages, changing nothing |
| Ledgers.ApplyMovementEffects | apps/backend/src/modules/ledger/ledger.service.ts:134-160 | success returns the appended movement with saldoAntes the balance read and saldoDespues the balance written; the version and other wallets are unchanged and the ledger invariant holds |
| Ledgers.LedgerService.GetBalancePesos | apps/backend/src/modules/ledger/ledger.service.ts:16-22 | returns GetBalancePesosSpec of the current state |
| Ledgers.LedgerService.LookupStatement | apps/backend/src/modules/ledger/ledger.service.ts:62-80 | the statement of the found user, or NotFound |
| Ledgers.LedgerService.ResumenByFirebaseUid | apps/backend/src/modules/ledger/ledger.service.ts:24-48 | returns the firebase-uid statement specification |
| Ledgers.LedgerService.ResumenByIdentifier | apps/backend/src/modules/ledger/ledger.service.ts:50-81 | returns the identifier statement specification |
| Ledgers.LedgerService.ResumenByUserId | apps/backend/src/modules/ledger/ledger.service.ts:83-107 | returns the user-id statement specification |
| Ledgers.LedgerService.ApplyMovement | apps/backend/src/modules/ledger/ledger.service.ts:109-161 | result and new state are those of ApplyMovementSpec |
| Ledgers.LedgerService.Append | apps/backend/src/modules/ledger/ledger.service.ts:142-160 | the balance update and the movement row are the posting rule applied to the old database, and the row returned is the one appended |
| Transfers.CreateSpec | apps/backend/src/transferencias/transferencias.service.ts:15-27 | a rejected creation (non-integer amount, or a body user id Prisma's Int column refuses) leaves the database as it was |
| Transfers.CompletarSpec | apps/backend/src/transferencias/transferencias.service.ts:30-71 | a failed completion, including one for a route id that is not an integer, leaves the database as it was |
| Transfers.MarcarFallidaSpec | apps/backend/src/transferencias/transferencias.service.ts:74-79 | a failed update, including one for a route id that is not an integer, leaves the database as it was |
| Transfers.ListDesc | apps/backend/src/transferencias/transferencias.service.ts:83-87 | at most `take` ids of the user's transfers, strictly decreasing |
| Transfers.ListarPorUsuarioSpec | apps/backend/src/transferencias/transferencias.service.ts:82-96 | fails, with Prisma's Int error, exactly for a user id that is not an integer; otherwise at most 20 items |
| Transfers.CreateEffects | apps/backend/src/transferencias/transferencias.service.ts:16-26 | refuses a non-integer amount with "Monto debe ser entero en COP", then a non-integer user id with Prisma's Int error, and nothing else; otherwise adds one PENDIENTE transfer under a fresh id and touches no wallet or movement |
| Transfers.CreateAcceptsNonPositive | apps/backend/src/transferencias/transferencias.service.ts:16-18 | zero and negative integer amounts are accepted |
| Transfers.CompletarRejects | apps/backend/src/transferencias/transferencias.service.ts:31-36 | an id that is not an integer fails with Prisma's Int error, an unknown id with "Transferencia no encontrada", a transfer not PENDIENTE with "Ya procesada"; these are the only failures and none changes the database |
| Transfers.CompletarEffects | apps/backend/src/transferencias/transferencias.service.ts:38-69 | the balance moves by exactly the amount, the version is bumped, one RECARGA/RETIRO movement linked to the transfer is appended, the transfer becomes COMPLETADA, and the ledger invariant holds |
| Transfers.CompletarOverdraws | apps/backend/src/transferencias/transferencias.service.ts:44-50 | there is no funds check: a withdrawal larger than the balance completes and leaves the wallet below zero |
| Transfers.CompletarTwice | apps/backend/src/transferencias/transferencias.service.ts:34-36 | a second completion is refused with "Ya procesada" and changes nothing |
| Transfers.MarcarFallidaEffects | apps/backend/src/transferencias/transferencias.service.ts:74-79 | fails only for an id that is not an integer (Prisma's Int error) or is unknown ("record not found"); otherwise sets FALLIDA from any state and touches nothing else |
| Transfers.FallidaAfterCompletar | apps/backend/src/transferencias/transferencias.service.ts:30-79 | marking a completed transfer failed keeps its movement and balance, and it can no longer be completed |
| Transfers.ListarPorUsuarioComplete | apps/backend/src/transferencias/transferencias.service.ts:83-87 | for an integral user id the listing holds only that user's transfers, newest first; every transfer of the user left out is older than all listed ones, and when the listing is shorter than 20 none is left out |
| Transfers.ListDescComplete | apps/backend/src/transferencias/transferencias.service.ts:83-87 | every transfer of the user below the bound that is left out is older than all listed ones; a listing shorter than its limit misses none |
| Transfers.TransferenciasService.Create | apps/backend/src/transferencias/transferencias.service.ts:15-27 | result and new state are those of CreateSpec |
| Transfers.TransferenciasService.Completar | apps/backend/src/transferencias/transferencias.service.ts:30-71 | result and new state are those of CompletarSpec |
| Transfers.TransferenciasService.MarcarFallida | apps/backend/src/transferencias/transferencias.service.ts:74-79 | result and new state are those of MarcarFallidaSpec |
| Transfers.TransferenciasService.ListarPorUsuario | apps/backend/src/transferencias/transferencias.service.ts:82-96 | the result of ListarPorUsuarioSpec, changing nothing |
| CrashX.StartRoundSpec | apps/backend/src/modules/juegos/crash_DronX/crashX.service.ts:18-46 | a rejected start creates nothing |
| CrashX.EndRoundSpec | apps/backend/src/modules/juegos/crash_DronX/crashX.service.ts:48-71 | a rejection before the round update leaves the database as it was |
| CrashX.StartRoundRejects | apps/backend/src/modules/juegos/crash_DronX/crashX.service.ts:19-24 | a startedBy that is not finite and positive fails with "startedBy inválido", an unknown user with "startedBy no existe", and nothing is created |
| CrashX.StartRoundEffects | apps/backend/src/modules/juegos/crash_DronX/crashX.service.ts:26-45 | the new round is RUN, attributed to startedBy, nonce 0, client seed the game code, hash the SHA-256 of the stored seed, under a fresh id returned as text |
| CrashX.StartRoundHidesSeed | apps/backend/src/modules/juegos/crash_DronX/crashX.service.ts:45 | the response does not depend on the server seed |
| CrashX.EndRoundRejects | apps/backend/src/modules/juegos/crash_DronX/crashX.service.ts:49-55 | a juegoId or finalX that is not finite and positive, and an unknown round, fail before any write; every existing round can be ended, CRASHED ones included |
| CrashX.EndRoundEffects | apps/backend/src/modules/juegos/crash_DronX/crashX.service.ts:57-70 | the round becomes CRASHED with finalX at two decimals, exactly its PLACED bets become LOST and are counted, and no balance or movement changes |
| CrashX.EndRoundSettled | apps/backend/src/modules/juegos/crash_DronX/crashX.service.ts:57-70 | ending a round with no PLACED bet succeeds, settles nothing and only rewrites the round row |
| CrashX.EndRoundReEnds | apps/backend/src/modules/juegos/crash_DronX/crashX.service.ts:54-63 | ending an already CRASHED round again succeeds, overwrites finalX and settles nothing more |
| CrashX.CrashXService.StartRound | apps/backend/src/modules/juegos/crash_DronX/crashX.service.ts:18-46 | result and new state are those of StartRoundSpec |
| CrashX.CrashXService.EndRound | apps/backend/src/modules/juegos/crash_DronX/crashX.service.ts:48-71 | result and new state are those of EndRoundSpec |
| CrashX.CrashXService.AutoCashoutUpToX | apps/backend/src/modules/juegos/crash_DronX/crashX.service.ts:77-79 | answers ok for the round and x with a count of 0, changing nothing |
| Crash.StartRoundSpec | apps/backend/src/crash/crash.service.ts:14-30 | starting a round succeeds exactly for an integral startedBy; any other fails with Prisma's Int error and leaves the database as it was |
| Crash.EndRoundSpec | apps/backend/src/crash/crash.service.ts:32-67 | a rejection before the round update leaves the database as it was |
| Crash.StartRoundEffects | apps/backend/src/crash/crash.service.ts:15-29 | for an integral startedBy, one RUN round attributed to it under a fresh id, with the placeholder as hash and no seed |
| Crash.RoundIdTextOrNumber | apps/backend/src/crash/crash.service.ts:34-35 | a round id given as its decimal text names the same round as the number |
| Crash.SettleAfterUpdate | apps/backend/src/crash/crash.service.ts:54-57 | the settlement after the update cannot fail for an existing round with a positive id |
| Crash.EndRoundRejects | apps/backend/src/crash/crash.service.ts:36-42 | a non-numeric id and a finalX not above 0 (NaN included) fail before any write; an existing round with a positive id is always ended |
| Crash.EndRoundAcceptsInfinity | apps/backend/src/crash/crash.service.ts:40-49 | the `!(finalX > 0)` guard lets +Infinity through and the round is stored with an infinite crash point |
| Crash.EndRoundEffects | apps/backend/src/crash/crash.service.ts:45-66 | answers ok, marks the round CRASHED with finalX at two decimals, moves exactly its PLACED bets to LOST and reports how many |
| Crash.CrashService.StartRound | apps/backend/src/crash/crash.service.ts:14-30 | result and new state are those of StartRoundSpec |
| Crash.CrashService.EndRound | apps/backend/src/crash/crash.service.ts:32-67 | result and new state are those of EndRoundSpec |
| BetRoutes.ResolveUserId | apps/backend/src/bet/bet.controller.ts:22-32 | when the header is not a positive number, a successful lookup yields an integral id of an existing user |
| BetRoutes.ResolveUserIdCases | apps/backend/src/bet/bet.controller.ts:22-32 | a positive-number header wins, even for an unknown user; otherwise no e-mail gives "X-User-Id requerido (o token con email)", and an e-mail succeeds exactly when some user has that correo, whose id is returned |
| BetRoutes.HeaderUserIdCases | apps/backend/src/bet/bet.controller.ts:22-23 | the decimal text of n in either header spelling is user n, usable exactly when n is positive; a missing header is not usable |
| BetRoutes.KeepDigitsMinus | apps/backend/src/bet/bet.controller.ts:47 | the filtered text holds only digits and minus signs and is no longer than the input |
| BetRoutes.KeepAllDigits | apps/backend/src/bet/bet.controller.ts:47 | an all-digit text passes the filter unchanged |
| BetRoutes.RawAmountFirstPresent | apps/backend/src/bet/bet.controller.ts:41-45 | the amount is the first of amountPesos, amount, monto and bet that is neither null nor undefined |
| BetRoutes.SanitizeToInt | apps/backend/src/bet/bet.controller.ts:47 | when what survives the filter is the decimal text of an integer, that integer is the amount |
| BetRoutes.SanitizeDigits | apps/backend/src/bet/bet.controller.ts:47 | when what survives the filter is a run of digits, the amount is the number they denote |
| BetRoutes.SanitizeSeparated | apps/backend/src/bet/bet.controller.ts:47 | a symbol prefix such as "$" and a separator such as "." or "," are dropped: "$20,000" reads as 20000 and "1.500" as 1500 |
| BetRoutes.SanitizeAmountMissing | apps/backend/src/bet/bet.controller.ts:47 | a missing amount becomes "undefined", then "" and 0 |
| Js.ParseExponentLiteral | apps/backend/src/bet/bet.controller.ts:35 | Number reads an exponent: the decimal text of n, then `e` or `E`, then the decimal text of k, is n·10^k, so the round id "1e2" is round 100 |
| Js.ParseRadixLiteral | apps/backend/src/bet/bet.controller.ts:22 | Number reads a `0x`, `0o` or `0b` literal (either case) as its digits in that radix, so the header "0x10" is user 16 |
| Js.SignedRadixLiteral | apps/backend/src/bet/bet.controller.ts:22 | a sign in front of a `0x`, `0o` or `0b` literal makes the text NaN |
| Js.ParseTrailingMinus | apps/backend/src/bet/bet.controller.ts:47 | digits followed by a minus sign, such as "5-", are NaN to Number |
| Js.ParseIntegerText | apps/backend/src/modules/ledger/ledger.service.ts:51-52 | Number(String(n)) is n for every integer n, in plain decimal below 10^21 and in exponent form from there on |
| Js.IntegerTextInjective | apps/backend/src/modules/ledger/ledger.service.ts:52 | two integers with the same String are equal |
| Js.SmallDigitText | apps/backend/src/bet/bet.controller.ts:47 | String of one digit d times 10^-k, k at least 7, is "de-k" (5·10^-7 is "5e-7") |
| BetRoutes.SanitizeTrailingMinus | apps/backend/src/bet/bet.controller.ts:47-49 | a trailing minus makes the amount NaN, which is then refused |
| BetRoutes.SanitizeAmountIntegers | apps/backend/src/bet/bet.controller.ts:47 | a positive integer amount below 10^21 passes through unchanged |
| BetRoutes.SanitizeAmountLarge | apps/backend/src/bet/bet.controller.ts:47-49 | from 10^21 on, String writes the amount in exponent form and the filter keeps its digits, so the amount becomes the number spelt by the mantissa digits followed by the exponent digits (10^21 becomes 121) |
| BetRoutes.SanitizeAmountSmall | apps/backend/src/bet/bet.controller.ts:47-49 | an amount d·10^-k (one digit d, k at least 7) is written "de-k"; the filter keeps "d-k", which Number reads as NaN |
| BetRoutes.SanitizeAmountTiny | apps/backend/src/bet/bet.controller.ts:47-49 | the amount 0.0000005 is written "5e-7" and becomes NaN |
| BetRoutes.SlotOf | apps/backend/src/bet/bet.controller.ts:58-61 | a slot, when present, is non-empty and already trimmed |
| BetRoutes.OptionalFields | apps/backend/src/bet/bet.controller.ts:53-61 | autoCashout is null exactly when absent or "", otherwise Number of it; a string slot with non-blank content is its trimmed text, a non-string slot is null |
| BetRoutes.ParsePlaceBody | apps/backend/src/bet/bet.controller.ts:35-61 | an accepted body has a positive round id and a positive integral amount |
| BetRoutes.ParsePlaceBodyRejects | apps/backend/src/bet/bet.controller.ts:35-50 | a round id that is not a positive number gives "roundId inválido", then an amount not sanitising to a positive number gives "amount inválido (pesos enteros)"; the body is accepted exactly when both hold |
| BetRoutes.PlaceDispatch | apps/backend/src/bet/bet.controller.ts:64-70 | a refused call leaves the database as it was |
| BetRoutes.PlaceSpec | apps/backend/src/bet/bet.controller.ts:20-71 | a refused request leaves the database as it was |
| BetRoutes.PlaceForSpec | apps/backend/src/bet/bet.controller.ts:35-71 | once the user is known, a refused body or call leaves the database as it was |
| BetRoutes.PlaceDelegates | apps/backend/src/bet/bet.controller.ts:64-70 | with integral ids the route is exactly the service's placement with the parsed round, user, amount, autoCashout and slot |
| BetRoutes.CashoutRouteSpec | apps/backend/src/bet/bet.controller.ts:74-80 | a refused request leaves the database as it was |
| BetRoutes.CashoutRouteRejects | apps/backend/src/bet/bet.controller.ts:75-79 | a bet id that is not a positive number gives "betId inválido", then an x not at least 1 (NaN included) gives "x inválido"; otherwise the route is the service's cashout |
| BetRoutes.CashoutRouteMissingX | apps/backend/src/bet/bet.controller.ts:77-78 | a missing x counts as 0 and is refused |
| BetRoutes.BetController.Place | apps/backend/src/bet/bet.controller.ts:19-71 | result and new state are those of PlaceSpec |
| BetRoutes.BetController.ResolveUser | apps/backend/src/bet/bet.controller.ts:22-32 | the id returned is that of ResolveUserId on the current database, and nothing changes |
| BetRoutes.BetController.PlaceFor | apps/backend/src/bet/bet.controller.ts:35-71 | result and new state are those of PlaceForSpec |
| BetRoutes.BetController.Cashout | apps/backend/src/bet/bet.controller.ts:73-80 | result and new state are those of CashoutRouteSpec |
| Usuarios.KeepUsernameChars | apps/backend/src/modules/usuarios/usuarios.service.ts:124 | the filtered text holds only characters of [a-z0-9_.-] and is no longer than the input |
| Usuarios.KeepUsernameCharsAll | apps/backend/src/modules/usuarios/usuarios.service.ts:124 | text made only of allowed characters passes the filter unchanged |
| Usuarios.Seed | apps/backend/src/modules/usuarios/usuarios.service.ts:124-126 | the seed always has the username format (3 to 20 allowed characters) |
| Usuarios.SeedOfValidName | apps/backend/src/modules/usuarios/usuarios.service.ts:124-126 | a base that already has the format is its own seed |
| Usuarios.SeedFallback | apps/backend/src/modules/usuarios/usuarios.service.ts:125-126 | a base with fewer than 3 or more than 20 usable characters falls back to "user" |
| Usuarios.FirstFreeFrom | apps/backend/src/modules/usuarios/usuarios.service.ts:134-141 | the index found is the first in i..999 whose candidate is free; none found means all of them are taken |
| Usuarios.EnsureUsernamePicks | apps/backend/src/modules/usuarios/usuarios.service.ts:123-143 | the seed when free; else the first free seed-i for i in 1..999 with every earlier one taken; only when all 999 are taken, the unchecked seed-stamp name |
| Usuarios.EnsureUsernameFree | apps/backend/src/modules/usuarios/usuarios.service.ts:128-141 | unless the seed and all 999 candidates are taken, the chosen name is free |
| Usuarios.SetUsernameSpec | apps/backend/src/modules/usuarios/usuarios.service.ts:149-170 | a refused rename leaves the database as it was |
| Usuarios.Renamed | apps/backend/src/modules/usuarios/usuarios.service.ts:162-169 | a failed update leaves the database as it was |
| Usuarios.SetUsernameRejects | apps/backend/src/modules/usuarios/usuarios.service.ts:150-160 | a cleaned name without the format or reserved is refused as invalid, a taken one as in use, before any write |
| Usuarios.SetUsernameRefusesReserved | apps/backend/src/modules/usuarios/usuarios.service.ts:150-153 | admin, root and support are refused whatever their case or padding |
| Usuarios.CleanPaddedUpper | apps/backend/src/modules/usuarios/usuarios.service.ts:150-151 | a well-formed name written in capitals with a space on each side cleans back to the name, so " ADMIN " is refused as the reserved "admin" |
| Usuarios.SetUsernameEffects | apps/backend/src/modules/usuarios/usuarios.service.ts:162-169 | a successful rename gives the uid's row the cleaned name, which afterwards exactly that row has; wallets and movements do not change and the database stays consistent |
| Usuarios.SetUsernameThenLookup | apps/backend/src/modules/usuarios/usuarios.service.ts:149-180 | a name set through setUsername is found by getEmailByUsername from any spelling that cleans to it, answering that user's correo |
| Usuarios.UpdateEstadoCuentaEffects | apps/backend/src/modules/usuarios/usuarios.service.ts:101-117 | only the uid's row changes: its state always, its last login only when going online; an unknown uid changes nothing |
| Usuarios.EmailByUsuarioFinds | apps/backend/src/modules/usuarios/usuarios.service.ts:173-180 | the lookup answers the correo of a row with exactly that usuario, and null exactly when none has it |
| Usuarios.EmailByCelularFinds | apps/backend/src/modules/usuarios/usuarios.service.ts:183-191 | a blank number finds nothing; otherwise the answer is null exactly when no row holds the trimmed number, and else the correo of the lowest-id row holding it |
| Usuarios.LocalPart | apps/backend/src/modules/usuarios/usuarios.service.ts:23 | the part before the first '@' is a prefix of the e-mail without '@' |
| Usuarios.UsernameSourceFromEmail | apps/backend/src/modules/usuarios/usuarios.service.ts:22-23 | without a usuario the base is the normalised e-mail's local part, a prefix of it with no '@' |
| Usuarios.UsernameSourceFallbacks | apps/backend/src/modules/usuarios/usuarios.service.ts:23 | a given usuario is used as it is; without one, an e-mail starting with "@" has an empty local part and the lower-cased uid is used |
| Usuarios.UpsertSpec | apps/backend/src/modules/usuarios/usuarios.service.ts:55-89 | a failed upsert leaves the database as it was |
| Usuarios.UpsertCreates | apps/backend/src/modules/usuarios/usuarios.service.ts:55-75 | a new uid gets one row under the next id with the profile's columns and the username, and a wallet with balance 0; no existing row had that correo or username |
| Usuarios.UpsertRefreshes | apps/backend/src/modules/usuarios/usuarios.service.ts:76-88 | a known uid has only its profile columns rewritten and answers its id and unchanged username |
| Usuarios.UpsertIdempotent | apps/backend/src/modules/usuarios/usuarios.service.ts:55-89 | repeating a successful upsert with the same profile, whatever username is offered, answers the same and changes nothing |
| Usuarios.SyncSpec | apps/backend/src/modules/usuarios/usuarios.service.ts:21-95 | a failed sync leaves the database as it was |
| Usuarios.SyncIdempotent | apps/backend/src/modules/usuarios/usuarios.service.ts:17-21 | syncFromFirebase is idempotent per firebase_uid: a repeat with the same profile answers the same and changes nothing |
| Usuarios.UsuarioService.EnsureUsername | apps/backend/src/modules/usuarios/usuarios.service.ts:123-143 | answers EnsureUsernameSpec on the current database |
| Usuarios.UsuarioService.SetUsername | apps/backend/src/modules/usuarios/usuarios.service.ts:149-170 | result and new state are those of SetUsernameSpec |
| Usuarios.UsuarioService.Rename | apps/backend/src/modules/usuarios/usuarios.service.ts:162-169 | result and new state are those of Renamed for the row found by firebase_uid: a missing row is RecordNotFound and changes nothing, otherwise only that row's usuario changes |
| Usuarios.UsuarioService.UpdateEstadoCuenta | apps/backend/src/modules/usuarios/usuarios.service.ts:101-118 | always ok; the new state is that of UpdateEstadoCuentaSpec |
| Usuarios.UsuarioService.GetEmailByUsername | apps/backend/src/modules/usuarios/usuarios.service.ts:173-180 | answers EmailByUsernameSpec |
| Usuarios.UsuarioService.GetEmailByCelular | apps/backend/src/modules/usuarios/usuarios.service.ts:183-191 | answers EmailByCelularSpec |
| Usuarios.UsuarioService.SyncFromFirebase | apps/backend/src/modules/usuarios/usuarios.service.ts:21-95 | result and new state are those of SyncSpec |
| Usuarios.UsuarioService.Upsert | apps/backend/src/modules/usuarios/usuarios.service.ts:55-89 | result and new state are those of UpsertSpec |
| Auth.BearerOf | apps/backend/src/auth/auth.controller.ts:65-67 | a token taken from the header is exactly what follows "Bearer " in it |
| Auth.TokenSources | apps/backend/src/auth/auth.controller.ts:65-71 | a "Bearer " header with a non-empty token wins; without a header the body token is used unless empty; with neither the answer is ok:false with the missing-token message |
| Auth.EmptyBearerHidesBody | apps/backend/src/auth/auth.controller.ts:65-71 | a bare "Bearer " header is an empty but non-nullish token, so the body token is never consulted and the answer is the missing-token one |
| Auth.VerifyAnswers | apps/backend/src/auth/auth.controller.ts:73-80 | a verified token is answered ok with its uid, email_verified being true only when the token says so |
| Auth.FirstFreeAttempt | apps/backend/src/auth/auth.controller.ts:191-200 | the attempt found is the first in i..999 whose name is free; none found means all of them are taken |
| Auth.UniqueUsernamePicks | apps/backend/src/auth/auth.controller.ts:188-202 | the name returned is free and every earlier attempt is taken; a Conflict happens exactly when all thousand attempts are taken; when the trimmed base is taken the name is the untrimmed base, "-" and a number from 1 to 999 (" ana " is tried as "ana", then " ana -1") |
| Auth.UniqueUsernameFirst | apps/backend/src/auth/auth.controller.ts:189-190 | the trimmed base, or "user" when blank, is the first attempt and is taken as it is when free |
| Auth.Missing | apps/backend/src/auth/auth.controller.ts:127-131 | at most the four required fields are listed |
| Auth.CreateLinkedSpec | apps/backend/src/auth/auth.controller.ts:140-170 | a failed transaction leaves the database as it was |
| Auth.ProvisionSpec | apps/backend/src/auth/auth.controller.ts:138-170 | a failure leaves the database as it was |
| Auth.LinkSpec | apps/backend/src/auth/auth.controller.ts:115-171 | a refused link leaves the database as it was |
| Auth.LinkExisting | apps/backend/src/auth/auth.controller.ts:118-125 | an already linked uid is answered created:false with no write, whatever else the body holds |
| Auth.LinkMissing | apps/backend/src/auth/auth.controller.ts:127-136 | missing fields are refused with the list in the order nombre_completo, usuario, correo, cedula, and nothing is created |
| Auth.LinkAllMissing | apps/backend/src/auth/auth.controller.ts:127-135 | for every body, the missing-field list agrees with a field-by-field reference, so a field is listed exactly when its value is empty, in the source's order; with every field missing it lists all four |
| Auth.LinkCreates | apps/backend/src/auth/auth.controller.ts:138-164 | a new link creates the user under the next id with the chosen username, the body's columns and moneda defaulting to COP, plus a wallet with balance 0; no existing row shared its username or correo |
| Auth.LinkTwice | apps/backend/src/auth/auth.controller.ts:115-171 | linking twice with the same token creates once: the second call answers the same id with created:false and writes nothing |
| Auth.AuthController.EnsureUniqueUsername | apps/backend/src/auth/auth.controller.ts:188-202 | answers UniqueUsernameSpec on the current database |
| Auth.AuthController.Link | apps/backend/src/auth/auth.controller.ts:114-171 | result and new state are those of LinkSpec |
| Auth.AuthController.Provision | apps/backend/src/auth/auth.controller.ts:138-170 | result and new state are those of ProvisionSpec |
| Auth.AuthController.CreateLinked | apps/backend/src/auth/auth.controller.ts:140-170 | result and new state are those of CreateLinkedSpec: a unique-column clash is a Conflict and changes nothing, otherwise the user and an empty wallet are created |
| FirebaseAuth.HeaderToken | apps/backend/src/auth/firebase.guard.ts:18-19 | a non-empty token is exactly what follows "Bearer " in the Authorization header |
| FirebaseAuth.StringRoles | apps/backend/src/auth/firebase.guard.ts:40-42 | an array of roles keeps its length; anything else gives no roles |
| FirebaseAuth.GuardSpec | apps/backend/src/auth/firebase.guard.ts:16-59 | the only failures are "Token no enviado" and "Token inválido o expirado" |
| FirebaseAuth.TokenExtraction | apps/backend/src/auth/firebase.guard.ts:18-21 | only text after a "Bearer " prefix is a token; a missing header, another scheme and a bare "Bearer " are refused as no token |
| FirebaseAuth.VerifyOutcome | apps/backend/src/auth/firebase.guard.ts:23-58 | a token the verifier rejects is "Token inválido o expirado"; an accepted one yields the normalised record of the decoded token |
| FirebaseAuth.AdminClaimStrict | apps/backend/src/auth/firebase.guard.ts:30-33 | only the boolean true is an admin claim: the text "true" and the number 1 are not, claims.admin true is |
| FirebaseAuth.RolesPrecedence | apps/backend/src/auth/firebase.guard.ts:35-42 | roles wins over claims.roles, which wins over a single truthy role; a non-array roles value gives no roles |
| FirebaseAuth.RolesTextIgnored | apps/backend/src/auth/firebase.guard.ts:40-42 | roles given as one text instead of an array are dropped |
| FirebaseAuth.AdminAppendedOnce | apps/backend/src/auth/firebase.guard.ts:44 | the token's roles stay in front; an admin ends with exactly one "admin" added when it had none and no more otherwise; a non-admin keeps the token's roles |
| FirebaseAuth.NormalizedFields | apps/backend/src/auth/firebase.guard.ts:46-53 | the record keeps the decoded token as claims, its uid and email, and one admin flag under both names |
| FirebaseAuth.ToJsReadsBack | apps/backend/src/auth/firebase.guard.ts:55-56 | the object stored on the request reads back the record's flags and exactly its roles |
| FirebaseAuth.FirebaseAuthGuard.CanActivate | apps/backend/src/auth/firebase.guard.ts:16-59 | on success answers true and stores the record as both user and firebaseUser; on failure throws the GuardSpec error and leaves the request untouched |
| Roles.CanActivate | apps/backend/src/auth/roles.guard.ts:15-35 | an allowed request answers true; the only failures are "Usuario no autenticado" and "Acceso denegado" |
| Roles.CanActivateDecides | apps/backend/src/auth/roles.guard.ts:15-35 | no required roles allows; otherwise no user is "Usuario no autenticado", and a user passes iff it has an admin flag or one of the required roles, else "Acceso denegado" |
| Roles.RolesNotArray | apps/backend/src/auth/roles.guard.ts:30-33 | a roles field that is not an array counts as no roles and a non-admin is denied |
| Roles.FirebaseUserFirst | apps/backend/src/auth/roles.guard.ts:24 | a set firebaseUser wins over req.user |
| Roles.MoreAlternatives | apps/backend/src/auth/roles.guard.ts:31 | required roles are alternatives: adding more, before or after, never turns an allowed request away |
| Roles.AfterFirebaseGuard | apps/backend/src/auth/firebase.guard.ts:44-56 | after FirebaseAuthGuard stored its record, RolesGuard allows exactly an admin token or one carrying a required role |
| Gateway.RoomForUser | apps/backend/src/gateway/juegos.gateway.ts:47 | a user room name starts with "user:" |
| Gateway.RoomForGame | apps/backend/src/gateway/juegos.gateway.ts:48-50 | a game room name starts with "game:" |
| Gateway.RoomsDistinct | apps/backend/src/gateway/juegos.gateway.ts:47-50 | user rooms and game rooms never collide, and distinct users have distinct rooms |
| Gateway.GameRoomRounds | apps/backend/src/gateway/juegos.gateway.ts:48-50 | without a round id the room is the game's "current" room; a round given as a number names the same room as String of that number (exponent form from 10^21 on), which is its plain decimal text below 10^21 |
| Gateway.JuegosGateway.ThrottleSpacing | apps/backend/src/gateway/juegos.gateway.ts:104-112 | two calls of Throttle for one client and event, at t and then at now: when the first passes, the second is throttled exactly when now < t + ms, and the stored time is t if it was throttled and now if it passed |
| Gateway.RateSlot | apps/backend/src/gateway/juegos.gateway.ts:113-121 | a missing window or one older than windowMs restarts at now with count 1; otherwise the call is added to the current window |
| Gateway.WindowResets | apps/backend/src/gateway/juegos.gateway.ts:116-118 | the first call after a window expires starts a new window with count 1, which is never limited |
| Gateway.RunWithinWindow | apps/backend/src/gateway/juegos.gateway.ts:113-121 | a run of calls within windowMs of the first is counted in one window, all of them |
| Gateway.LimitWithinWindow | apps/backend/src/gateway/juegos.gateway.ts:113-121 | within one window the first limit calls pass and every later one is limited |
| Gateway.DefaultRateLimit | apps/backend/src/gateway/juegos.gateway.ts:113 | with the defaults, ten calls within five seconds of the first pass and the eleventh is limited |
| Gateway.Socket.constructor | apps/backend/src/gateway/juegos.gateway.ts:64 | a new socket has no user, no rooms, nothing emitted, and is connected |
| Gateway.JuegosGateway.constructor | apps/backend/src/gateway/juegos.gateway.ts:43-44 | the throttle and rate-limit maps start empty |
| Gateway.JuegosGateway.HandleConnection | apps/backend/src/gateway/juegos.gateway.ts:64-95 | a token from the handshake (auth.token, else the Authorization header without "Bearer ") that resolves to a user sets it on the socket, joins its room, emits the connected event and gives fresh maps; a missing token, an unprovisioned user or any other failure emits its sys:error and disconnects |
| Gateway.JuegosGateway.HandleDisconnect | apps/backend/src/gateway/juegos.gateway.ts:97-102 | a socket with a user leaves its user room; its throttle and rate-limit maps are dropped |
| Gateway.JuegosGateway.Throttle | apps/backend/src/gateway/juegos.gateway.ts:104-112 | false for a socket without a map; true, storing nothing, for an event less than ms after the last; otherwise the time is stored and the event passes |
| Gateway.JuegosGateway.RateLimit | apps/backend/src/gateway/juegos.gateway.ts:113-122 | the call is counted in the event's window (created as needed) and is limited exactly when the count exceeds limit |
| Gateway.JuegosGateway.HandleAuthRefresh | apps/backend/src/gateway/juegos.gateway.ts:124-141 | a resolved user is set on the socket, which moves to the new user's room only when it had another user; a failure only emits "Unauthorized (refresh)" |
| Gateway.JuegosGateway.HandleRoomJoin | apps/backend/src/gateway/juegos.gateway.ts:143-155 | without a user or a game code only the matching sys:error is emitted; otherwise the socket joins the game room and is told its name |
| Gateway.RefreshRooms | apps/backend/src/gateway/juegos.gateway.ts:131-135 | a refresh to a different user swaps the old user room for the new one |
| GranSpin.ShownSize | apps/backend/src/modules/juegos/granspin/granspin.service.ts:36-38 | three equal symbols show one symbol, three distinct ones show three, and a spin always shows one to three |
| GranSpin.PayoutTable | apps/backend/src/modules/juegos/granspin/granspin.service.ts:35-40 | one symbol shown pays five times the bet, two (exactly a pair) twice, three nothing |
| GranSpin.PayoutValues | apps/backend/src/modules/juegos/granspin/granspin.service.ts:35-40 | the payout is always 0, twice or five times the bet |
| GranSpin.PayoutSymmetric | apps/backend/src/modules/juegos/granspin/granspin.service.ts:35-40 | reordering the reels never changes the payout |
| GranSpin.PayoutBounds | apps/backend/src/modules/juegos/granspin/granspin.service.ts:35-40 | for a positive bet the payout is between 0 and five times the bet |
| ParentBus.Without | apps/frontend/src/lib/parentBus.ts:27 | exactly the ids other than x remain, without duplicates if there were none, and nothing changes when x is absent |
| ParentBus.WithoutConcat | apps/frontend/src/lib/parentBus.ts:27 | filtering a concatenation filters each part |
| ParentBus.DropFromMiddle | apps/frontend/src/lib/parentBus.ts:44 | deleting a key present once removes just that key, keeping the others' insertion order |
| ParentBus.WithoutKeepsHead | apps/frontend/src/lib/parentBus.ts:46 | deleting a key other than the first keeps the first key |
| ParentBus.NoDupSplit | apps/frontend/src/lib/parentBus.ts:18 | a key occurring once is neither before nor after its own position |
| ParentBus.KeepFresh | apps/frontend/src/lib/parentBus.ts:129-133 | exactly the ids whose heartbeat is not older than the timeout remain, in order and without duplicates |
| ParentBus.FreshStep | apps/frontend/src/lib/parentBus.ts:129-133 | the sweep keeps a fresh id in place and moves on |
| ParentBus.StaleStep | apps/frontend/src/lib/parentBus.ts:129-133 | removing a stale id during the sweep leaves the fresh ids seen so far followed by the rest |
| ParentBus.PostsToReach | apps/frontend/src/lib/parentBus.ts:36-41 | a relay posts to every client with a window except the sender, each at its own origin, and to no one else |
| ParentBus.CrashSender | apps/frontend/src/lib/parentBus.ts:117-118 | a crash:* message names its sender in meta.from; without one the sender is the empty id |
| ParentBus.ReplyOrigins | apps/frontend/src/lib/parentBus.ts:111-112 | the auth reply goes to the event's origin when it is real, else to the iframe's origin, else to any origin |
| ParentBus.RegistrationConsistent | apps/frontend/src/lib/parentBus.ts:24-30 | registering a client keeps the client list duplicate-free, a leader present exactly when there are clients, and the leader one of them |
| ParentBus.RemovalConsistent | apps/frontend/src/lib/parentBus.ts:43-53 | removing a client keeps the client list duplicate-free, a leader present exactly when there are clients, and the leader one of them |
| ParentBus.SweptKeys | apps/frontend/src/lib/parentBus.ts:127-134 | after a sweep the clients left are exactly the fresh ones |
| ParentBus.Bus.constructor | apps/frontend/src/lib/parentBus.ts:18-20 | no clients, no leader, not initialised, nothing posted, default heartbeat interval 5000 and timeout 15000 |
| ParentBus.Bus.Init | apps/frontend/src/lib/parentBus.ts:81-85 | only the first call initialises, taking the given interval and timeout over the defaults; later calls change nothing |
| ParentBus.Bus.RegisterChild | apps/frontend/src/lib/parentBus.ts:24-34 | the client is stored or replaced, appended to the order when new; the first child (or one after an empty leader id) becomes leader; the child is sent the other peers and the leader |
| ParentBus.Bus.Broadcast | apps/frontend/src/lib/parentBus.ts:36-41 | every client but the sender gets the message at its origin; nothing else changes |
| ParentBus.Bus.RemoveChild | apps/frontend/src/lib/parentBus.ts:43-53 | the client is dropped; when it led, the first remaining client leads (none if empty) and every remaining client is told |
| ParentBus.Bus.AnnounceLeader | apps/frontend/src/lib/parentBus.ts:47-51 | every client with a window is told the current leader, in insertion order |
| ParentBus.Bus.Beat | apps/frontend/src/lib/parentBus.ts:97-101 | a heartbeat refreshes the lastBeat of a known child only |
| ParentBus.Bus.OnMessage | apps/frontend/src/lib/parentBus.ts:87-123 | malformed messages change nothing; register stores the child, appends a new id to the order, makes it leader when none (or the empty id) led and sends it the registered reply; unload drops the child and, when it led, passes the lead to the first remaining client and tells every client; a heartbeat refreshes a known child only; auth:request answers the source with the stored session at the reply origin; crash:* is relayed only when it comes from the leader |
| ParentBus.AnnouncedAfterRemoval | apps/frontend/src/lib/parentBus.ts:43-53 | removing a client during a sweep keeps the sweep's posts correct: a removed leader is announced to every client left, and only leader changes are posted |
| ParentBus.Bus.SweepStep | apps/frontend/src/lib/parentBus.ts:129-133 | one step of the sweep removes the id when stale and keeps the sweep's invariant |
| ParentBus.Bus.Sweep | apps/frontend/src/lib/parentBus.ts:127-134 | exactly the clients with a heartbeat older than the timeout are removed, in insertion order; the rest are untouched; a surviving leader stays and nothing is posted; otherwise the first survivor leads and every survivor with a window has been told that leader; the sweep posts nothing but leader changes |
| Phone.KeepDigits | apps/frontend/src/auth/RegisterForm.tsx:42 | the result holds only ASCII digits and is no longer than the input |
| Phone.GroupedLayout | apps/frontend/src/auth/RegisterForm.tsx:46 | for a non-empty run of digits, the trimmed "+57 xxx xxx xxxx" template is the layout with no separator after the last non-empty group |
| Phone.LayoutPrefix | apps/frontend/src/auth/RegisterForm.tsx:46 | the display starts with "+57 " |
| Phone.LayoutDigits | apps/frontend/src/auth/RegisterForm.tsx:46 | the digits of the display are 57 followed by exactly the first ten digits of the national part |
| Phone.LayoutCompact | apps/frontend/src/auth/RegisterForm.tsx:46 | without its spaces the display is "+57" and the first ten digits of the national part |
| Phone.LayoutFirstTen | apps/frontend/src/auth/RegisterForm.tsx:46 | the display depends only on the first ten digits |
| Phone.BareDigits | apps/frontend/src/auth/RegisterForm.tsx:48 | the bare prefix "+57 " carries only the country code's digits |
| Phone.BareCompact | apps/frontend/src/auth/RegisterForm.tsx:48 | the bare prefix without spaces is "+57" |
| Forms.CountTrue | apps/frontend/src/auth/RegisterForm.tsx:84-91 | the count of passed tests is at most the number of tests |
| Forms.PwdScore | apps/frontend/src/auth/RegisterForm.tsx:84-91 | the score is the number of strength tests passed (length 8, uppercase, lowercase, digit or symbol), between 0 and 4 |
| Forms.PassRuleStrength | apps/frontend/src/auth/RegisterForm.tsx:80-91 | a password the rule accepts passes at least three tests, so the meter shows "Buena" or "Fuerte", and "Fuerte" exactly when it also has a lowercase letter |
| Forms.MeterLabelsDistinct | apps/frontend/src/auth/RegisterForm.tsx:156 | every score 0 to 4 has its own label and the fallback is never reached |
| Forms.FirstKey | apps/frontend/src/components/AuthModal.tsx:663-672 | the key found is the first, from i on, contained in the message; none found means no key is contained |
| Forms.LowerOfUpper | apps/frontend/src/auth/Login.tsx:32 | lower-casing forgets an earlier upper-casing |
| AuthModal.National | apps/frontend/src/components/AuthModal.tsx:32-38 | the national part is made only of digits |
| AuthModal.NationalOf | apps/frontend/src/components/AuthModal.tsx:33-38 | the national part of a digit string is made only of digits |
| AuthModal.ValidDigits | apps/frontend/src/components/AuthModal.tsx:32-40 | a number is valid exactly when its digits are 57 and a ten-digit mobile number starting with 3, or that number alone |
| AuthModal.MobileDigits | apps/frontend/src/components/AuthModal.tsx:34-40 | the national part is a mobile number exactly when the digits are 573 and nine more, or 3 and nine more |
| AuthModal.E164Form | apps/frontend/src/components/AuthModal.tsx:44 | a valid number's E.164 form is "+57" and the national part, thirteen characters equal to the display without spaces; otherwise it is "+57" alone |
| AuthModal.PrettyShape | apps/frontend/src/components/AuthModal.tsx:41-43 | the display starts with "+57 " and shows exactly the first ten digits of the national part, grouped 3-3-4 |
| AuthModal.NationalOfPretty | apps/frontend/src/components/AuthModal.tsx:31-46 | the national part read back from the display is the first ten digits of the original one |
| AuthModal.PrettyIdempotent | apps/frontend/src/components/AuthModal.tsx:311 | normalising the display again gives the same display, so the field that feeds it back on each keystroke is stable |
| AuthModal.PrettyValidity | apps/frontend/src/components/AuthModal.tsx:226 | the display is valid exactly when the national part has at least ten digits and starts with 3: extra digits are dropped, not refused |
| AuthModal.InitialCelular | apps/frontend/src/components/AuthModal.tsx:357 | the field's initial "+57 " is already normalised and not valid |
| AuthModal.SubmittedPayload | apps/frontend/src/components/AuthModal.tsx:392-427 | a form that may be submitted sends a password of at least eight characters equal to its confirmation, a cedula of at least eight digits, a "+573" number of thirteen characters, and a username exactly when one was typed |
| AuthModal.ValidE164 | apps/frontend/src/components/AuthModal.tsx:424 | a valid number's E.164 form is "+573" followed by nine more digits |
| AuthModal.UsuarioOptional | apps/frontend/src/components/AuthModal.tsx:385 | clearing the username never blocks a submission |
| AuthModal.SubmitNeedsEach | apps/frontend/src/components/AuthModal.tsx:384-402 | a missing agreement, a mismatched confirmation, a cedula under eight digits, or a missing birth date or gender each block submission |
| AuthModal.TypedCelular | apps/frontend/src/components/AuthModal.tsx:404-411 | a celular typed through the change handler is valid exactly when its national part has at least ten digits and starts with 3 |
| AuthModal.MapAuthErrorTable | apps/frontend/src/components/AuthModal.tsx:661-673 | no message for an absent or empty one; otherwise the message of the first key the lower-cased text contains, or none |
| AuthModal.MapAuthErrorCaseInsensitive | apps/frontend/src/components/AuthModal.tsx:663 | the mapping ignores the case of the message |
| RegisterForm.Mobile | apps/frontend/src/auth/RegisterForm.tsx:42-54 | a national part, when displayed, is digits starting with 3 |
| RegisterForm.MobileOf | apps/frontend/src/auth/RegisterForm.tsx:43-54 | a national part of a digit string, when displayed, is digits starting with 3 |
| RegisterForm.NormalizeLayout | apps/frontend/src/auth/RegisterForm.tsx:41-57 | the output is the grouped display of the national part, or "+57 " when the digits do not reach a 3 (after an optional 57) |
| RegisterForm.StartsWithCountryCode | apps/frontend/src/auth/RegisterForm.tsx:41-57 | the output always starts with "+57 " |
| RegisterForm.NotMobileAfterCode | apps/frontend/src/auth/RegisterForm.tsx:43-48 | digits starting with 57 and not continuing with 3 give the bare "+57 " |
| RegisterForm.AtMostTenDigits | apps/frontend/src/auth/RegisterForm.tsx:46-53 | the output keeps at most ten national digits after the code, and exactly the first ten of the national part |
| RegisterForm.MobileOfOutput | apps/frontend/src/auth/RegisterForm.tsx:41-57 | the national part read back from the output is the first ten digits of the original one, and none stays none |
| RegisterForm.NormalizeIdempotent | apps/frontend/src/auth/RegisterForm.tsx:64-71 | normalising twice is normalising once, so the change handler is stable on its own output |
| RegisterForm.NormalizedCelular | apps/frontend/src/auth/RegisterForm.tsx:100 | a normalised celular passes the check exactly when the national part has at least ten digits, and its compact form is "+57" and the first ten |
| RegisterForm.SubmittedPayload | apps/frontend/src/auth/RegisterForm.tsx:105-133 | a submitted form sends a "+573" number of thirteen characters, an address of more than five characters, a cedula of at least eight digits, and a username exactly when one was typed |
| RegisterForm.InitialBlocked | apps/frontend/src/auth/RegisterForm.tsx:22-35 | the initial form cannot be submitted |
| RegisterForm.DireccionDecides | apps/frontend/src/auth/RegisterForm.tsx:101-116 | given the other checks, submission depends exactly on the trimmed address being longer than five characters |
| RegisterForm.TypedCelular | apps/frontend/src/auth/RegisterForm.tsx:64-77 | a celular entered through the change handler passes exactly when at least ten national digits were typed after the code |
| RegisterForm.MapAuthErrorTable | apps/frontend/src/auth/RegisterForm.tsx:401-409 | no message for an absent or empty one; otherwise the message of the first key the lower-cased text contains, or none |
| RegisterForm.MapAuthErrorCaseInsensitive | apps/frontend/src/auth/RegisterForm.tsx:403 | the mapping ignores the case of the message |
| Login.RunLength | apps/frontend/src/auth/Login.tsx:24 | the run after i stays in the text, is all code characters ([a-z0-9-] in any case) and cannot be extended |
| Login.FindCode | apps/frontend/src/auth/Login.tsx:24 | the position found is the leftmost match of /auth\/[a-z0-9-]+/i from p on; none means no match there |
| Login.MatchShape | apps/frontend/src/auth/Login.tsx:24-25 | a lower-cased match is "auth/" followed by a non-empty run of lower-case letters, digits and hyphens |
| Login.CodeInMessageShape | apps/frontend/src/auth/Login.tsx:22-26 | a code is found exactly when the pattern occurs; it is the lower-cased leftmost, longest match |
| Login.ExtractOrder | apps/frontend/src/auth/Login.tsx:14-28 | the error's own string code wins, then its cause's, then a code found in the message, else "auth/unknown"; null and a numeric code give "auth/unknown" |
| Login.UpperKeepsCodeChars | apps/frontend/src/auth/Login.tsx:24 | upper-casing keeps the length and which characters are code characters |
| Login.RunLengthUpper | apps/frontend/src/auth/Login.tsx:24 | upper-casing does not change the length of a run |
| Login.CodeAtUpper | apps/frontend/src/auth/Login.tsx:24 | the case-insensitive pattern matches at the same places after upper-casing |
| Login.FindCodeUpper | apps/frontend/src/auth/Login.tsx:24 | upper-casing does not move the leftmost match |
| Login.CodeInMessageCaseInsensitive | apps/frontend/src/auth/Login.tsx:24-25 | upper-casing the message gives the same code |
| Login.Targets | apps/frontend/src/auth/Login.tsx:31-62 | the identifier field gets exactly the invalid-email and user-not-found codes, the password field exactly the three credential codes with "Contraseña incorrecta.", and any unknown code the generic form error |
| Login.MapCaseInsensitive | apps/frontend/src/auth/Login.tsx:32 | codes are compared without regard to case, and "auth/unknown" gets the generic error |
| Login.ValidateOutcome | apps/frontend/src/auth/Login.tsx:64-71 | at most one message is set; none exactly when the trimmed identifier is non-empty and the password has at least six characters; the identifier message exactly when it is blank |
| Login.ValidateTrimsIdentifier | apps/frontend/src/auth/Login.tsx:65 | surrounding blanks in the identifier do not matter |
| ChildAuthBridge.StarMatchesAll | apps/frontend/src/lib/childAuthBridge.ts:25 | "*" matches every origin, even one that does not parse |
| ChildAuthBridge.UnparseableOrigin | apps/frontend/src/lib/childAuthBridge.ts:27-28 | an origin that does not parse matches no pattern but "*" |
| ChildAuthBridge.WildcardPattern | apps/frontend/src/lib/childAuthBridge.ts:35-38 | "*.d" matches exactly the host d itself and every host ending in ".d" |
| ChildAuthBridge.WildcardNeedsDot | apps/frontend/src/lib/childAuthBridge.ts:35-38 | "*.example.com" does not match xexample.com |
| ChildAuthBridge.ExactPattern | apps/frontend/src/lib/childAuthBridge.ts:30-40 | any other pattern, its scheme stripped when it parses as a URL, matches exactly the origin with that host |
| ChildAuthBridge.MapNonEmpty | apps/frontend/src/lib/childAuthBridge.ts:57 | no entry is empty and there are no more entries than items |
| ChildAuthBridge.MapNonEmptyMembers | apps/frontend/src/lib/childAuthBridge.ts:57 | a text is kept exactly when it is non-empty and the image of some item |
| ChildAuthBridge.TrimmedEntriesMembers | apps/frontend/src/lib/childAuthBridge.ts:57 | an entry survives exactly when it is not blank, and it survives trimmed |
| ChildAuthBridge.AllowListDefaults | apps/frontend/src/lib/childAuthBridge.ts:49-58 | without the option only the iframe's own origin is allowed, or every origin when its source does not parse; a list keeps exactly its non-blank entries, trimmed |
| ChildAuthBridge.IsAllowedByList | apps/frontend/src/lib/childAuthBridge.ts:60-63 | an origin is allowed by a list exactly when one of its patterns matches; "*" in the list allows all and an empty list allows none |
| ChildAuthBridge.ProactiveTarget | apps/frontend/src/lib/childAuthBridge.ts:68-71 | the proactive target is never empty, and is "*" without an override |
| ChildAuthBridge.OnlyAllowedRequestsAnswered | apps/frontend/src/lib/childAuthBridge.ts:80-100 | exactly an auth:request object from the iframe's window with an allowed origin is answered, with the current session, posted to that window at the event's origin |
| Games.InCategory | apps/frontend/src/data/games.ts:126-128 | the filtered list is no longer than the catalogue and holds only its games of the category |
| Games.InCategoryConcat | apps/frontend/src/data/games.ts:126-128 | filtering a concatenation filters each part, so the catalogue's order is kept |
| Games.InCategoryKeeps | apps/frontend/src/data/games.ts:126-128 | every game of the category is kept |
| Games.FindSlug | apps/frontend/src/data/games.ts:130-132 | the index found is the first game with the slug; none exactly when no game has it |
| Games.InitialCatalogDistinct | apps/frontend/src/data/games.ts:51-124 | the shipped catalogue's slugs and ids are unique |
| Games.InitialCatalogPlayable | apps/frontend/src/data/games.ts:45-124 | every shipped game is playable, given a non-empty DRONX_URL |
| Games.InCategoryStep | apps/frontend/src/data/games.ts:126-128 | filtering keeps or drops one game at a time |
| Games.CrashAtZeroAndFive | apps/frontend/src/data/games.ts:126-128 | in eight games where only the first and sixth are crash games, the crash filter gives those two |
| Games.InitialCrashGames | apps/frontend/src/data/games.ts:51-128 | the crash category of the shipped catalogue holds DronX and Crash Rocket, in that order |
| Games.Catalog.constructor | apps/frontend/src/data/games.ts:51-124 | the catalogue starts as the shipped list |
| Games.Catalog.GetGames | apps/frontend/src/data/games.ts:126-128 | exactly the catalogue's games of the category |
| Games.Catalog.GetGameBySlug | apps/frontend/src/data/games.ts:130-132 | the first game with the slug, none exactly when no game has it |
| Games.Catalog.GetPlayableBySlug | apps/frontend/src/data/games.ts:134-137 | the game with the slug when it is playable, none otherwise |
| Games.Catalog.SetGameName | apps/frontend/src/data/games.ts:139-144 | an unknown slug changes nothing and gives none; otherwise only the first game with the slug gets the trimmed name and is returned, and every slug stays in place |
| Games.FindSlugSameSlugs | apps/frontend/src/data/games.ts:130-132 | lists with the same slugs in the same places agree on every lookup |
| Games.RenameKeepsLookups | apps/frontend/src/data/games.ts:139-144 | renaming keeps slugs unique and in place and does not change which game a slug finds |
| Games.UniqueSlugLookup | apps/frontend/src/data/games.ts:130-132 | with unique slugs the lookup finds each game at its own index |
| Games.CategoriesComplete | apps/frontend/src/data/games.ts:36-39 | every category is listed exactly once |

## Left out

- Persistence and identity services (Prisma, Firestore, Firebase Auth): foreign code. Tables are an in-memory store, each transaction commits atomically, and Prisma's unique-key violation (P2002) is a conflict error.
- Concurrency and transaction isolation: each service method is one atomic step; interleavings are not modelled.
- Floating-point arithmetic: JavaScript numbers are exact reals, so binary64 rounding (for example of `stake·x` before `Math.floor`) is not modelled.
- UTF-16 lengths and full Unicode: strings are sequences of code points, and `toLowerCase`/`toUpperCase` map ASCII letters only.
- Firestore mirroring in UsuarioService and firestore-sync.service.ts: fire-and-forget I/O that never affects the database outcome.
- Socket emits, crashx.events.ts and mov-listener.ts (Postgres LISTEN): notification side effects.
- JuegosGateway `emitToUser`, `emitToGame`, `emitAll` (juegos.gateway.ts:52-61) and the CORS origin list (17-34): they only forward to socket.io.
- Crash-point generation in utils/rng.ts and the float helpers in utils/constants.ts: HMAC-SHA256 with `Math.random()`, not deterministic, and called by neither round service.
- SHA-256 of the server seed and the random server seed itself: the hash is a function parameter and the seed an input.
- GranSpin `spin`, `generateRandomResult` and `randomSymbol` (granspin.service.ts:8-33): randomness and a broadcast; only the payout rule is modelled.
- AuthController `create`, `getUser`, `me` and `status` (auth.controller.ts:50-58, 83-111, 174-186): thin reads and writes through the repository with no rule of their own.
- bcrypt hashing and the parsing of `fechaNacimiento` into a `Date`: library calls; the hash and the date are opaque values.
- `Date.now().toString(36)` in `ensureUsername`'s fallback: the parameter `stamp`.
- The clock (`new Date()`, `Date.now()`): the parameter `now`.
- localStorage, `getIdToken` and `onIdTokenChanged`: the stored session is a parameter.
- The listener wiring of `initChildAuthBridge`, `initParentBus`'s `addEventListener` and the `setInterval` timing: the handlers and one sweep are modelled, not when the browser runs them.
- `deriveOriginForSource` in parentBus: the iframe lookup is the parameter `derivedOrigin`.
- `new URL(...)`: URL parsing is the parameter `UrlParser` (host and origin, or failure).
- Exceptions thrown by `postMessage` (caught and ignored in the source): a post always lands in the outbox.
- Games.Catalog.SetGameName: returns a copy of the renamed game, so later mutation through the returned object (aliasing) is not modelled.
- `CATEGORY_LABELS` (games.ts:24-34) and the `ensureAbsolute` construction of `DRONX_URL`: display text, and a build-time value passed in as a parameter.
- Sign-in flows in AuthModal and Login (Google, password recovery, SMS): UI wiring around Firebase calls.
- UI components and pages, Nest modules, DTOs, main.ts, scripts and build configuration: plumbing with no rule of their own.
- The read-only juegos.service.ts: a thin Prisma wrapper.
- Crash.StartRoundSpec: the database schema is not part of this model, so the foreign key from a round to its user is not either; a round for a startedBy with no user row is created, where the database would refuse it.
- Transfers.CreateSpec: for the same reason a transfer for a usuarioId with no user row is created; and the body's usuarioId and monto are taken to be numbers, so a field of another JSON type (a string, a missing field) is not modelled.
- Money.Add, Money.Sub, Money.Mul, Money.Div: decimal.js rounds every result to its default precision of 20 significant digits; the model computes exactly, which agrees whenever the exact result has at most 20 significant digits (sums, differences and products of the services' integer peso amounts) but not for quotients such as 1/3. `divDec` has no caller in the modelled services.
- Usuarios.EmailByCelularFinds: `findFirst` without an `orderBy` leaves the row to the database when several users share a phone number; the model fixes the choice as the lowest id.
- Ledgers.IdentifierLookupFinds: `findFirst` at ledger.service.ts:58-61 has no `orderBy`, so when several users share the correo or usuario the database picks one of them; the model fixes that choice as the lowest id.
- Store.Resumen, Wallets.ResumenPorEmailSpec, Ledgers.StatementOf, Transfers.ListDesc: `orderBy: { createdAt: 'desc' }` (wallet.service.ts:104-109, ledger.service.ts:64-69, transferencias.service.ts:84) is modelled as descending id. Ids are autoincremented, so the two orders agree for rows created one after another; among rows sharing a createdAt, or created by concurrent transactions, the database's order may differ from the model's.
- BetRoutes.SanitizeAmountIntegers: holds below 10^21 only; from 10^21 on String writes exponent form and SanitizeAmountLarge gives the value the filter produces.
- Js.NumToString: binary64 rounding to the shortest round-tripping digits is not modelled. A non-integral value is written with its exact digits, cut after 20 fraction digits (of the mantissa in exponent form); a non-integral value of 10^21 or more drops its fraction; and a value below 10^-400, which binary64 cannot hold, is written with its exponent capped at -400.
- Js.IntToString: plain decimal digits with no exponent form. It is used only for database ids (round, bet and user ids from `Int` columns), which stay far below 10^21; every `String(…)` of a JavaScript number goes through Js.NumToString.
- Money.DecimalFromString: decimal.js also reads hexadecimal, octal and binary strings (with a sign, a fraction or a `p` exponent); the model refuses them as invalid.
