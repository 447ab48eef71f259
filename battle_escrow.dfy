/**
 * The on-chain battle escrow: a global BattlePool account and one BattleDeposit
 * account per battle.  Players pay the entry fee into the pool's token account when
 * they join; the dev wallet records a winner and pays out 95% of the pot to the
 * winner and 5% to itself.
 *
 * Each instruction is a method over the account objects.  The token program is an
 * abstract ledger of balances.  A transaction is all-or-nothing: an instruction that
 * fails (a failed `require!` or a failed transfer) leaves every account as it was.
 * The effect of each instruction is given by a pure transition function (Join,
 * Complete, Payout); the lemmas below state the escrow's invariants about them.
 */
module BattleEscrow {
  import opened Wrappers

  const U8_LIMIT: int := 0x100
  const U64_LIMIT: int := 0x1_0000_0000_0000_0000

  type u8 = x: int | 0 <= x < U8_LIMIT
  type u64 = x: int | 0 <= x < U64_LIMIT

  /** A 32-byte public key; the program only compares keys for equality. */
  type Pubkey = nat

  datatype BattleStatus = WaitingForPlayers | ReadyToStart | InProgress | Completed | PaidOut

  datatype ErrorCode =
    | BattleNotJoinable
    | BattleFull
    | UnauthorizedDev
    | BattleNotCompleted
    | NoWinner
    | InvalidWinner

  /** Why an instruction failed: one of the program's codes, or the token program refusing a transfer. */
  datatype Error = Program(code: ErrorCode) | TokenTransferFailed

  /** The contents of a BattleDeposit account. */
  datatype Deposit = Deposit(
    battleId: string,
    creator: Pubkey,
    entryFee: u64,
    maxParticipants: u8,
    currentParticipants: u8,
    totalDeposited: u64,
    status: BattleStatus,
    winner: Option<Pubkey>)

  /** The contents of the BattlePool account. */
  datatype Pool = Pool(devWallet: Pubkey, totalDeposited: u64, totalPaidOut: u64)

  /** A token account: its address in the ledger and the wallet that owns it. */
  datatype TokenAccount = TokenAccount(address: nat, owner: Pubkey)

  /** Token balances by account address; an address not in the map holds nothing. */
  type Balances = map<nat, nat>

  function Balance(b: Balances, a: nat): nat {
    if a in b then b[a] else 0
  }

  /** The token program's transfer: fails when the source holds less than `amount`. */
  function Transfer(b: Balances, from: nat, to: nat, amount: nat): (r: Option<Balances>)
    ensures r.Some? <==> Balance(b, from) >= amount
    ensures r.Some? && from != to ==>
      && Balance(r.value, from) == Balance(b, from) - amount
      && Balance(r.value, to) == Balance(b, to) + amount
    ensures r.Some? ==> forall a :: a != from && a != to ==> Balance(r.value, a) == Balance(b, a)
    ensures r.Some? && from == to ==> Balance(r.value, from) == Balance(b, from)
  {
    if Balance(b, from) < amount then None
    else
      var b1 := b[from := Balance(b, from) - amount];
      Some(b1[to := Balance(b1, to) + amount])
  }

  // ------------------------------------------------------------------ invariants

  /**
   * What every deposit created by this program satisfies: the participant count never
   * exceeds the maximum, the deposit holds exactly one entry fee per participant, a
   * ReadyToStart battle is full, and no battle is ever InProgress.
   */
  predicate Valid(d: Deposit) {
    && d.currentParticipants <= d.maxParticipants
    && d.totalDeposited == d.currentParticipants * d.entryFee
    && (d.status == ReadyToStart ==> d.currentParticipants == d.maxParticipants)
    && d.status != InProgress
  }

  // ------------------------------------------------------------------ transitions

  /** The deposit `create_battle_deposit` writes. */
  function NewDeposit(battleId: string, creator: Pubkey, entryFee: u64, maxParticipants: u8): (d: Deposit)
    ensures Valid(d)
    ensures d.currentParticipants == 0 && d.totalDeposited == 0 && d.status == WaitingForPlayers
    ensures d.entryFee == entryFee && d.maxParticipants == maxParticipants && d.creator == creator
    ensures d.winner.None?
  {
    Deposit(battleId, creator, entryFee, maxParticipants, 0, 0, WaitingForPlayers, None)
  }

  /** The two `require!` checks of `join_battle` pass. */
  predicate Joinable(d: Deposit) {
    d.status == WaitingForPlayers && d.currentParticipants < d.maxParticipants
  }

  /** The `+=` additions of a successful join stay within u64 (the source does not check them). */
  predicate JoinFits(d: Deposit, p: Pool) {
    && d.totalDeposited + d.entryFee < U64_LIMIT
    && p.totalDeposited + d.entryFee < U64_LIMIT
  }

  /** The deposit after one more participant has paid: the last seat makes it ReadyToStart. */
  function Joined(d: Deposit): Deposit
    requires d.currentParticipants + 1 < U8_LIMIT && d.totalDeposited + d.entryFee < U64_LIMIT
  {
    var count := d.currentParticipants + 1;
    d.(currentParticipants := count,
       totalDeposited := d.totalDeposited + d.entryFee,
       status := if count >= d.maxParticipants then ReadyToStart else d.status)
  }

  /** `join_battle`: new deposit, pool and balances, or the error it stops with. */
  function Join(d: Deposit, p: Pool, b: Balances, playerAccount: nat, poolAccount: nat)
    : (r: Result<(Deposit, Pool, Balances), Error>)
    requires Joinable(d) ==> JoinFits(d, p)
    ensures d.status != WaitingForPlayers ==> r == Err(Program(BattleNotJoinable))
    ensures d.status == WaitingForPlayers && d.currentParticipants >= d.maxParticipants ==>
      r == Err(Program(BattleFull))
    ensures r.Ok? <==> Joinable(d) && Balance(b, playerAccount) >= d.entryFee
    ensures r.Ok? ==>
      var (d', p', b') := r.value;
      && d' == d.(currentParticipants := d.currentParticipants + 1,
                  totalDeposited := d.totalDeposited + d.entryFee,
                  status := if d.currentParticipants + 1 >= d.maxParticipants then ReadyToStart else d.status)
      && p' == p.(totalDeposited := p.totalDeposited + d.entryFee)
      && Transfer(b, playerAccount, poolAccount, d.entryFee).Some?
      && b' == Transfer(b, playerAccount, poolAccount, d.entryFee).value
  {
    if d.status != WaitingForPlayers then Err(Program(BattleNotJoinable))
    else if !(d.currentParticipants < d.maxParticipants) then Err(Program(BattleFull))
    else match Transfer(b, playerAccount, poolAccount, d.entryFee)
      case None => Err(TokenTransferFailed)
      case Some(b') =>
        Ok((Joined(d), p.(totalDeposited := p.totalDeposited + d.entryFee), b'))
  }

  /** `complete_battle`: only the dev wallet may record a winner; the prior status is not checked. */
  function Complete(d: Deposit, p: Pool, signer: Pubkey, winner: Pubkey): (r: Result<Deposit, Error>)
    ensures r.Ok? <==> signer == p.devWallet
    ensures r.Err? ==> r.error == Program(UnauthorizedDev)
    ensures r.Ok? ==> r.value == d.(winner := Some(winner), status := Completed)
  {
    if signer != p.devWallet then Err(Program(UnauthorizedDev))
    else Ok(d.(winner := Some(winner), status := Completed))
  }

  /** The dev fee: 5% of the pot, rounded down, computed as `total * 5 / 100`. */
  function DevFee(total: nat): nat {
    total * 5 / 100
  }

  /** The winner's share: what is left of the pot after the dev fee. */
  function WinnerPayout(total: nat): (w: int)
    ensures w >= 0
  {
    total - DevFee(total)
  }

  /** The additions of a successful payout stay within u64, including the intermediate `total * 5`. */
  predicate PayoutFits(d: Deposit, p: Pool) {
    && d.totalDeposited * 5 < U64_LIMIT
    && p.totalPaidOut + d.totalDeposited < U64_LIMIT
  }

  /** The four `require!` checks of `payout_winner`, in the order the source makes them. */
  function PayoutCheck(d: Deposit, p: Pool, signer: Pubkey, winnerAccount: TokenAccount): Option<ErrorCode> {
    if signer != p.devWallet then Some(UnauthorizedDev)
    else if d.status != Completed then Some(BattleNotCompleted)
    else if d.winner.None? then Some(NoWinner)
    else if winnerAccount.owner != d.winner.value then Some(InvalidWinner)
    else None
  }

  /** `payout_winner`: pays the winner's share and the dev fee out of the pool's token account. */
  function Payout(d: Deposit, p: Pool, b: Balances, signer: Pubkey, poolAccount: nat,
                  winnerAccount: TokenAccount, devAccount: nat)
    : (r: Result<(Deposit, Pool, Balances), Error>)
    requires PayoutCheck(d, p, signer, winnerAccount).None? ==> PayoutFits(d, p)
    ensures PayoutCheck(d, p, signer, winnerAccount).Some? ==>
      r == Err(Program(PayoutCheck(d, p, signer, winnerAccount).value))
    ensures r.Ok? ==>
      var (d', p', _) := r.value;
      && d' == d.(status := PaidOut)
      && p' == p.(totalPaidOut := p.totalPaidOut + d.totalDeposited)
  {
    match PayoutCheck(d, p, signer, winnerAccount)
    case Some(code) => Err(Program(code))
    case None =>
      var total := d.totalDeposited;
      match Transfer(b, poolAccount, winnerAccount.address, WinnerPayout(total))
      case None => Err(TokenTransferFailed)
      case Some(b1) =>
        match Transfer(b1, poolAccount, devAccount, DevFee(total))
        case None => Err(TokenTransferFailed)
        case Some(b2) =>
          Ok((d.(status := PaidOut), p.(totalPaidOut := p.totalPaidOut + total), b2))
  }

  // ------------------------------------------------------------------ properties

  /** A successful join keeps the deposit invariant. */
  lemma JoinKeepsValid(d: Deposit, p: Pool, b: Balances, playerAccount: nat, poolAccount: nat)
    requires Valid(d) && (Joinable(d) ==> JoinFits(d, p))
    ensures var r := Join(d, p, b, playerAccount, poolAccount);
      r.Ok? ==> Valid(r.value.0)
  {
    if Join(d, p, b, playerAccount, poolAccount).Ok? {
      var d' := Joined(d);
      assert Join(d, p, b, playerAccount, poolAccount).value.0 == d';
      calc {
        d'.totalDeposited;
        d.currentParticipants * d.entryFee + d.entryFee;
        (d.currentParticipants + 1) * d.entryFee;
      }
    }
  }

  /** A join makes the battle ReadyToStart exactly when it fills the last seat. */
  lemma JoinReadyExactlyWhenFull(d: Deposit, p: Pool, b: Balances, playerAccount: nat, poolAccount: nat)
    requires Valid(d) && (Joinable(d) ==> JoinFits(d, p))
    ensures var r := Join(d, p, b, playerAccount, poolAccount);
      r.Ok? ==>
        (r.value.0.status == ReadyToStart <==> r.value.0.currentParticipants == d.maxParticipants)
        && (r.value.0.status != ReadyToStart ==> r.value.0.status == WaitingForPlayers)
  {
  }

  /** Once a battle is full, every further join fails and changes nothing. */
  lemma FullBattleRejectsJoin(d: Deposit, p: Pool, b: Balances, playerAccount: nat, poolAccount: nat)
    requires Valid(d) && d.currentParticipants == d.maxParticipants
    ensures Join(d, p, b, playerAccount, poolAccount).Err?
  {
  }

  /** The payout always splits the whole pot: fee plus winner share is the deposit's total, and the fee is at most 5%. */
  lemma PayoutSplitsPot(total: nat)
    ensures DevFee(total) + WinnerPayout(total) == total
    ensures 20 * DevFee(total) <= total
    ensures total < 20 * (DevFee(total) + 1)
  {
  }

  /**
   * A successful join moves the entry fee from the player's token account to the pool's
   * and touches no other balance.  Stated per account, so it also covers a player who
   * pays from the pool's own token account (then nothing moves).
   */
  lemma JoinMovesFee(d: Deposit, p: Pool, b: Balances, playerAccount: nat, poolAccount: nat, a: nat)
    requires Joinable(d) ==> JoinFits(d, p)
    ensures var r := Join(d, p, b, playerAccount, poolAccount);
      r.Ok? ==>
        Balance(r.value.2, a) + (if a == playerAccount then d.entryFee else 0)
          == Balance(b, a) + (if a == poolAccount then d.entryFee else 0)
  {
  }

  /**
   * A successful payout takes the whole pot out of the pool's token account and credits
   * the winner's share and the dev fee.  Stated per account, so it holds however the
   * three token accounts coincide: when the dev wallet wins and names its own token
   * account twice, that account gains the whole pot.
   */
  lemma PayoutMovesPot(d: Deposit, p: Pool, b: Balances, signer: Pubkey, poolAccount: nat,
                       winnerAccount: TokenAccount, devAccount: nat, a: nat)
    requires PayoutCheck(d, p, signer, winnerAccount).None? ==> PayoutFits(d, p)
    ensures var r := Payout(d, p, b, signer, poolAccount, winnerAccount, devAccount);
      r.Ok? ==>
        Balance(r.value.2, a) + (if a == poolAccount then d.totalDeposited else 0)
          == Balance(b, a)
             + (if a == winnerAccount.address then WinnerPayout(d.totalDeposited) else 0)
             + (if a == devAccount then DevFee(d.totalDeposited) else 0)
    ensures poolAccount != winnerAccount.address ==>
      (Payout(d, p, b, signer, poolAccount, winnerAccount, devAccount).Ok? <==>
       PayoutCheck(d, p, signer, winnerAccount).None? && Balance(b, poolAccount) >= d.totalDeposited)
  {
    PayoutSplitsPot(d.totalDeposited);
  }

  /** The shared-account case spelled out: a dev wallet paid into one token account gets the whole pot. */
  lemma DevWinnerGetsWholePot(d: Deposit, p: Pool, b: Balances, signer: Pubkey, poolAccount: nat,
                              winnerAccount: TokenAccount)
    requires PayoutCheck(d, p, signer, winnerAccount).None? ==> PayoutFits(d, p)
    requires poolAccount != winnerAccount.address
    ensures var r := Payout(d, p, b, signer, poolAccount, winnerAccount, winnerAccount.address);
      r.Ok? ==>
        && Balance(r.value.2, winnerAccount.address) == Balance(b, winnerAccount.address) + d.totalDeposited
        && Balance(r.value.2, poolAccount) == Balance(b, poolAccount) - d.totalDeposited
  {
    PayoutMovesPot(d, p, b, signer, poolAccount, winnerAccount, winnerAccount.address, winnerAccount.address);
    PayoutMovesPot(d, p, b, signer, poolAccount, winnerAccount, winnerAccount.address, poolAccount);
  }

  /** complete_battle and payout_winner keep the deposit invariant. */
  lemma CompleteAndPayoutKeepValid(d: Deposit, p: Pool, b: Balances, signer: Pubkey, winner: Pubkey,
                                   poolAccount: nat, winnerAccount: TokenAccount, devAccount: nat)
    requires Valid(d)
    requires PayoutCheck(d, p, signer, winnerAccount).None? ==> PayoutFits(d, p)
    ensures var r := Complete(d, p, signer, winner); r.Ok? ==> Valid(r.value)
    ensures var r := Payout(d, p, b, signer, poolAccount, winnerAccount, devAccount);
      r.Ok? ==> Valid(r.value.0)
  {
  }

  /**
   * complete_battle does not check the status, so a battle that has been paid out can be
   * completed again and paid out a second time: the pool then records the pot as paid
   * out twice, while the deposit's total is never cleared.
   */
  lemma PaidOutBattleCanBePaidAgain(d: Deposit, p: Pool, b: Balances, winner: TokenAccount,
                                    poolAccount: nat, devAccount: nat)
    requires d.status == PaidOut
    requires p.totalPaidOut + 2 * d.totalDeposited < U64_LIMIT && d.totalDeposited * 5 < U64_LIMIT
    requires poolAccount != winner.address
    requires Balance(b, poolAccount) >= d.totalDeposited
    ensures var c := Complete(d, p, p.devWallet, winner.owner);
      c.Ok? &&
      var r := Payout(c.value, p, b, p.devWallet, poolAccount, winner, devAccount);
      r.Ok? && r.value.0.status == PaidOut && r.value.0.totalDeposited == d.totalDeposited
      && r.value.1.totalPaidOut == p.totalPaidOut + d.totalDeposited
  {
    var c := Complete(d, p, p.devWallet, winner.owner).value;
    assert PayoutCheck(c, p, p.devWallet, winner).None?;
    PayoutMovesPot(c, p, b, p.devWallet, poolAccount, winner, devAccount, poolAccount);
  }

  // ------------------------------------------------------------------ accounts

  /** The BattlePool account. */
  class BattlePool {
    var devWallet: Pubkey
    var totalDeposited: u64
    var totalPaidOut: u64

    function State(): Pool
      reads this
    {
      Pool(devWallet, totalDeposited, totalPaidOut)
    }

    /** `initialize`: records the dev wallet with both counters at zero. */
    constructor Initialize(devWallet: Pubkey)
      ensures State() == Pool(devWallet, 0, 0)
    {
      this.devWallet := devWallet;
      totalDeposited := 0;
      totalPaidOut := 0;
    }
  }

  /** One BattleDeposit account. */
  class BattleDeposit {
    var battleId: string
    var creator: Pubkey
    var entryFee: u64
    var maxParticipants: u8
    var currentParticipants: u8
    var totalDeposited: u64
    var status: BattleStatus
    var winner: Option<Pubkey>

    function State(): Deposit
      reads this
    {
      Deposit(battleId, creator, entryFee, maxParticipants, currentParticipants, totalDeposited, status, winner)
    }

    /** `create_battle_deposit`, signed by `creator`. */
    constructor CreateBattleDeposit(battleId: string, creator: Pubkey, entryFee: u64, maxParticipants: u8)
      ensures State() == NewDeposit(battleId, creator, entryFee, maxParticipants)
      ensures Valid(State())
    {
      this.battleId := battleId;
      this.creator := creator;
      this.entryFee := entryFee;
      this.maxParticipants := maxParticipants;
      currentParticipants := 0;
      totalDeposited := 0;
      status := WaitingForPlayers;
      winner := None;
    }
  }

  /** The token program's balances. */
  class TokenLedger {
    var balances: Balances

    constructor (balances: Balances)
      ensures this.balances == balances
    {
      this.balances := balances;
    }

    /** A token transfer CPI: applied when the source account holds enough. */
    method ApplyTransfer(from: nat, to: nat, amount: nat) returns (ok: bool)
      modifies this
      ensures ok <==> Balance(old(balances), from) >= amount
      ensures var r := Transfer(old(balances), from, to, amount);
        if ok then balances == r.value else balances == old(balances)
    ensures !ok ==> unchanged(this)
    {
      var r := Transfer(balances, from, to, amount);
      ok := r.Some?;
      if ok { balances := r.value; }
    }
  }

  /** `join_battle`, signed by the player who owns `playerAccount`. */
  method JoinBattle(deposit: BattleDeposit, pool: BattlePool, ledger: TokenLedger,
                    playerAccount: nat, poolAccount: nat)
    returns (r: Result<(), Error>)
    requires Joinable(deposit.State()) ==> JoinFits(deposit.State(), pool.State())
    modifies deposit, pool, ledger
    ensures match Join(old(deposit.State()), old(pool.State()), old(ledger.balances), playerAccount, poolAccount)
      case Ok((d, p, b)) => r.Ok? && deposit.State() == d && pool.State() == p && ledger.balances == b
      case Err(e) => r == Err(e) && unchanged(deposit, pool, ledger)
  {
    if deposit.status != WaitingForPlayers {
      return Err(Program(BattleNotJoinable));
    }
    if !(deposit.currentParticipants < deposit.maxParticipants) {
      return Err(Program(BattleFull));
    }
    ghost var d0, p0 := deposit.State(), pool.State();
    var ok := ledger.ApplyTransfer(playerAccount, poolAccount, deposit.entryFee);
    if !ok {
      return Err(TokenTransferFailed);
    }
    deposit.currentParticipants := deposit.currentParticipants + 1;
    deposit.totalDeposited := deposit.totalDeposited + deposit.entryFee;
    pool.totalDeposited := pool.totalDeposited + deposit.entryFee;
    if deposit.currentParticipants >= deposit.maxParticipants {
      deposit.status := ReadyToStart;
    }
    assert deposit.State() == Joined(d0);
    assert pool.State() == p0.(totalDeposited := p0.totalDeposited + d0.entryFee);
    return Ok(());
  }

  /** `complete_battle`, signed by `signer`. */
  method CompleteBattle(deposit: BattleDeposit, pool: BattlePool, signer: Pubkey, winner: Pubkey)
    returns (r: Result<(), Error>)
    modifies deposit
    ensures match Complete(old(deposit.State()), pool.State(), signer, winner)
      case Ok(d) => r.Ok? && deposit.State() == d
      case Err(e) => r == Err(e) && unchanged(deposit)
  {
    if signer != pool.devWallet {
      return Err(Program(UnauthorizedDev));
    }
    deposit.winner := Some(winner);
    deposit.status := Completed;
    return Ok(());
  }

  /**
   * `payout_winner`, signed by `signer`.  The two transfers are tried on a copy of the
   * balances and written back only when both succeed, as the runtime reverts a
   * transaction whose second transfer fails.
   */
  method PayoutWinner(deposit: BattleDeposit, pool: BattlePool, ledger: TokenLedger, signer: Pubkey,
                      poolAccount: nat, winnerAccount: TokenAccount, devAccount: nat)
    returns (r: Result<(), Error>)
    requires PayoutCheck(deposit.State(), pool.State(), signer, winnerAccount).None? ==>
      PayoutFits(deposit.State(), pool.State())
    modifies deposit, pool, ledger
    ensures match Payout(old(deposit.State()), old(pool.State()), old(ledger.balances), signer,
                         poolAccount, winnerAccount, devAccount)
      case Ok((d, p, b)) => r.Ok? && deposit.State() == d && pool.State() == p && ledger.balances == b
      case Err(e) => r == Err(e) && unchanged(deposit, pool, ledger)
  {
    if signer != pool.devWallet {
      return Err(Program(UnauthorizedDev));
    }
    if deposit.status != Completed {
      return Err(Program(BattleNotCompleted));
    }
    if deposit.winner.None? {
      return Err(Program(NoWinner));
    }
    var winner := deposit.winner.value;
    if winnerAccount.owner != winner {
      return Err(Program(InvalidWinner));
    }
    var totalPrize := deposit.totalDeposited;
    var devFee := totalPrize * 5 / 100;
    var winnerPayout := totalPrize - devFee;
    var first := Transfer(ledger.balances, poolAccount, winnerAccount.address, winnerPayout);
    if first.None? {
      return Err(TokenTransferFailed);
    }
    var second := Transfer(first.value, poolAccount, devAccount, devFee);
    if second.None? {
      return Err(TokenTransferFailed);
    }
    ledger.balances := second.value;
    deposit.status := PaidOut;
    pool.totalPaidOut := pool.totalPaidOut + totalPrize;
    return Ok(());
  }
}
