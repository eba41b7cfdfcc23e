/** Rider wallets and their ledger: `db/wallet_repository.go` and `domain/wallet_service.go`.

    Amounts and balances are Go `int64`s, so the additions of the repository wrap around. */
module Wallet {
  import opened Common

  const MAX_INT64: int := 0x7FFF_FFFF_FFFF_FFFF
  const TWO_64: int := 0x1_0000_0000_0000_0000

  function Wrap64(x: int): int { (x + MAX_INT64 + 1) % TWO_64 - MAX_INT64 - 1 }

  datatype Error = UserRequired | AmountNegative | InvalidAmount | InsufficientFunds | DatabaseFailure

  datatype Kind = TopUp | Deduction | Reward | OtherKind(name: string)

  datatype Summary = Summary(balance: int, points: int)

  datatype Tx = Tx(user: string, amount: int, kind: Kind)

  /** The `wallets` and `wallet_transactions` tables. */
  datatype Store = Store(wallets: map<string, Summary>, ledger: seq<Tx>)

  const EMPTY_WALLET := Summary(0, 0)

  /** A rider without a row reads as an empty wallet: every access creates the row first. */
  function View(wallets: map<string, Summary>, user: string): Summary {
    if user in wallets then wallets[user] else EMPTY_WALLET
  }

  /** What one ledger row does to a wallet. */
  function Apply(w: Summary, tx: Tx): Result<Summary, Error> {
    match tx.kind
    case TopUp => Ok(w.(balance := Wrap64(w.balance + tx.amount)))
    case Deduction => if w.balance < tx.amount then Err(InsufficientFunds)
                      else Ok(w.(balance := Wrap64(w.balance - tx.amount)))
    case Reward => Ok(w.(points := Wrap64(w.points + tx.amount)))
    case OtherKind(_) => Err(InvalidAmount)
  }

  /** `ApplyTransaction` of the repository, run on its own. */
  function Transact(s: Store, tx: Tx): (Store, Result<Summary, Error>) {
    if tx.user == "" then (s, Err(UserRequired))
    else if tx.amount < 0 then (s, Err(AmountNegative))
    else
      match Apply(View(s.wallets, tx.user), tx)
      case Err(e) => (s, Err(e))
      case Ok(w) => (Store(s.wallets[tx.user := w], s.ledger + [tx]), Ok(w))
  }

  // ---------------------------------------------------------------- the ledger adds up

  /** The wallet a ledger leads to, or the first refusal. */
  function Replay(ledger: seq<Tx>, user: string): Result<Summary, Error> {
    if ledger == [] then Ok(EMPTY_WALLET)
    else
      var before, tx := Replay(ledger[..|ledger| - 1], user), ledger[|ledger| - 1];
      if before.Err? || tx.user != user then before else Apply(before.value, tx)
  }

  function Total(ledger: seq<Tx>, user: string, kind: Kind): int {
    if ledger == [] then 0
    else
      var tx := ledger[|ledger| - 1];
      Total(ledger[..|ledger| - 1], user, kind) + (if tx.user == user && tx.kind == kind then tx.amount else 0)
  }

  ghost predicate NonNegative(ledger: seq<Tx>) {
    forall i :: 0 <= i < |ledger| ==> ledger[i].amount >= 0
  }

  lemma {:induction false} TotalNonNegative(ledger: seq<Tx>, user: string, kind: Kind)
    requires NonNegative(ledger)
    ensures Total(ledger, user, kind) >= 0
  {
    if ledger != [] { TotalNonNegative(ledger[..|ledger| - 1], user, kind); }
  }

  lemma WrapExact(x: int)
    requires 0 <= x <= MAX_INT64
    ensures Wrap64(x) == x
  {
  }

  /** The top-ups less the deductions. */
  function Net(ledger: seq<Tx>, user: string): int {
    Total(ledger, user, TopUp) - Total(ledger, user, Deduction)
  }

  lemma WrapAdd(x: int, y: int)
    ensures Wrap64(Wrap64(x) + y) == Wrap64(x + y)
  {
    var k := (x + MAX_INT64 + 1) / TWO_64;
    assert Wrap64(x) == x - k * TWO_64;
    assert (x + y + MAX_INT64 + 1 - k * TWO_64) % TWO_64 == (x + y + MAX_INT64 + 1) % TWO_64;
  }

  lemma WrapBelow(x: int)
    requires x >= 0
    ensures Wrap64(x) <= x
    ensures Wrap64(x) == x <==> x <= MAX_INT64
  {
  }

  /** Whatever overflows, the net of a ledger that replays is never negative, and the wallet holds it modulo two to the
      64. */
  lemma {:induction false} LedgerWraps(ledger: seq<Tx>, user: string)
    requires NonNegative(ledger) && Replay(ledger, user).Ok?
    ensures
      var w := Replay(ledger, user).value;
      && Net(ledger, user) >= 0
      && w == Summary(Wrap64(Net(ledger, user)), Wrap64(Total(ledger, user, Reward)))
  {
    if ledger != [] {
      var before, tx := ledger[..|ledger| - 1], ledger[|ledger| - 1];
      LedgerWraps(before, user);
      var net, rewards := Net(before, user), Total(before, user, Reward);
      WrapBelow(net);
      if tx.user == user {
        WrapAdd(net, tx.amount);
        WrapAdd(net, -tx.amount);
        WrapAdd(rewards, tx.amount);
      }
    }
  }

  /** A wallet its ledger explains holds exactly the top-ups less the deductions if and only if that fits 64 bits, and
      then it is not negative; its points are exactly the rewards if and only if they fit. */
  lemma {:induction false} LedgerSum(ledger: seq<Tx>, user: string)
    requires NonNegative(ledger) && Replay(ledger, user).Ok?
    ensures
      var w := Replay(ledger, user).value;
      && w.balance == Wrap64(Net(ledger, user)) && w.points == Wrap64(Total(ledger, user, Reward))
      && Net(ledger, user) >= 0
      && (w.balance == Net(ledger, user) <==> Net(ledger, user) <= MAX_INT64)
      && (w.points == Total(ledger, user, Reward) <==> Total(ledger, user, Reward) <= MAX_INT64)
  {
    LedgerWraps(ledger, user);
    TotalNonNegative(ledger, user, Reward);
    WrapBelow(Net(ledger, user));
    WrapBelow(Total(ledger, user, Reward));
  }

  // ---------------------------------------------------------------- service rules

  datatype Config = Config(
    minTopUp: int, maxTopUp: int, defaultFare: int, rewardPoints: int, fares: map<string, int>)

  const DEFAULT_CONFIG := Config(10000, 5000000, 0, 0,
                                 map["uit-bike" := 0, "uit-go" := 0, "uit-car" := 0, "uit-plus" := 0, "uit-rider" := 0])

  function LowerChar(c: char): char { if 'A' <= c <= 'Z' then (c as int + 32) as char else c }

  function Lower(s: string): string { seq(|s|, i requires 0 <= i < |s| => LowerChar(s[i])) }

  /** `fareForService`: a positive fare of the service, otherwise the default fare. */
  function FareFor(cfg: Config, service: string): int {
    var key := Lower(service);
    if service != "" && key in cfg.fares && cfg.fares[key] > 0 then cfg.fares[key] else cfg.defaultFare
  }

  /** `ApplyTransaction` of the service: the checks it adds before the repository. */
  function ServiceTransact(cfg: Config, s: Store, tx: Tx): (Store, Result<Summary, Error>) {
    if tx.user == "" then (s, Err(UserRequired))
    else if tx.amount <= 0 then (s, Err(InvalidAmount))
    else if tx.kind.OtherKind? then (s, Err(InvalidAmount))
    else if tx.kind.TopUp? && !(cfg.minTopUp <= tx.amount <= cfg.maxTopUp) then (s, Err(InvalidAmount))
    else Transact(s, tx)
  }

  function Touch(s: Store, user: string): Store { s.(wallets := s.wallets[user := View(s.wallets, user)]) }

  function DoTopUp(cfg: Config, s: Store, user: string, amount: int): (Store, Result<Summary, Error>) {
    if user == "" then (s, Err(UserRequired))
    else if !(cfg.minTopUp <= amount <= cfg.maxTopUp) then (s, Err(InvalidAmount))
    else ServiceTransact(cfg, s, Tx(user, amount, TopUp))
  }

  function DoDeduct(cfg: Config, s: Store, user: string, service: string): (Store, Result<Summary, Error>) {
    if user == "" then (s, Err(UserRequired))
    else ServiceTransact(cfg, s, Tx(user, FareFor(cfg, service), Deduction))
  }

  function DoReward(cfg: Config, s: Store, user: string): (Store, Result<Summary, Error>) {
    if user == "" then (s, Err(UserRequired))
    else if cfg.rewardPoints <= 0 then (Touch(s, user), Ok(View(s.wallets, user)))
    else ServiceTransact(cfg, s, Tx(user, cfg.rewardPoints, Reward))
  }

  function DoEnsure(cfg: Config, s: Store, user: string, service: string): (Store, Result<int, Error>) {
    if user == "" then (s, Err(UserRequired))
    else
      var fare := FareFor(cfg, service);
      (Touch(s, user), if View(s.wallets, user).balance < fare then Err(InsufficientFunds) else Ok(fare))
  }

  /** `t` differs from `s` by one ledger row and what it does to its rider's wallet. */
  ghost predicate Committed(s: Store, t: Store, tx: Tx, after: Summary) {
    && t.ledger == s.ledger + [tx] && View(t.wallets, tx.user) == after
    && forall other :: other != tx.user ==> View(t.wallets, other) == View(s.wallets, other)
  }

  /** Nobody reads anything else in `t` than in `s`. */
  ghost predicate SameViews(s: Store, t: Store) {
    t.ledger == s.ledger && forall user :: View(t.wallets, user) == View(s.wallets, user)
  }

  /** A transaction is committed exactly for a rider, an amount that is not negative and a known kind, and a deduction only
      if the balance covers it; amounts are added to or taken from the right column, and a refusal changes nothing. */
  lemma TransactExactly(s: Store, tx: Tx)
    ensures
      var (t, r) := Transact(s, tx);
      var w := View(s.wallets, tx.user);
      && (r.Ok? <==> tx.user != "" && tx.amount >= 0 && !tx.kind.OtherKind? && (tx.kind.Deduction? ==> tx.amount <= w.balance))
      && (r.Err? ==> t == s)
      && (r.Ok? && tx.kind.TopUp? ==> Committed(s, t, tx, Summary(Wrap64(w.balance + tx.amount), w.points)))
      && (r.Ok? && tx.kind.Deduction? ==> Committed(s, t, tx, Summary(Wrap64(w.balance - tx.amount), w.points)))
      && (r.Ok? && tx.kind.Reward? ==> Committed(s, t, tx, Summary(w.balance, Wrap64(w.points + tx.amount))))
      && (r.Ok? ==> r.value == View(t.wallets, tx.user))
      && (r == Err(InsufficientFunds) <==> tx.user != "" && tx.amount > w.balance && tx.amount >= 0 && tx.kind.Deduction?)
  {
  }

  /** The service admits what the repository does, less empty amounts and top-ups outside the limits. */
  lemma ServiceExactly(cfg: Config, s: Store, tx: Tx)
    ensures
      var (t, r) := ServiceTransact(cfg, s, tx);
      && (r.Ok? <==>
            && tx.user != "" && tx.amount > 0 && !tx.kind.OtherKind?
            && (tx.kind.TopUp? ==> cfg.minTopUp <= tx.amount <= cfg.maxTopUp)
            && (tx.kind.Deduction? ==> tx.amount <= View(s.wallets, tx.user).balance))
      && (if r.Ok? then (t, r) == Transact(s, tx) else t == s)
  {
    TransactExactly(s, tx);
  }

  /** A top-up is admitted exactly within the limits, and then adds its amount to the balance and a row to the ledger. */
  lemma TopUpExactly(cfg: Config, s: Store, user: string, amount: int)
    ensures
      var (t, r) := DoTopUp(cfg, s, user, amount);
      var w := View(s.wallets, user);
      && (r.Ok? <==> user != "" && 0 < amount && cfg.minTopUp <= amount <= cfg.maxTopUp)
      && (if r.Ok? then Committed(s, t, Tx(user, amount, TopUp), Summary(Wrap64(w.balance + amount), w.points)) else t == s)
  {
  }

  lemma DefaultLimits(s: Store, user: string, amount: int)
    requires user != ""
    ensures DoTopUp(DEFAULT_CONFIG, s, user, amount).1.Ok? <==> 10000 <= amount <= 5000000
  {
  }

  /** What a service costs: its own fare, found whatever the case of its letters, if that is positive, else the default. */
  lemma FareExactly(cfg: Config, service: string, key: string)
    requires service != "" && |key| == |service|
    requires forall i :: 0 <= i < |key| ==>
               key[i] == if 'A' <= service[i] <= 'Z' then (service[i] as int - 'A' as int + 'a' as int) as char else service[i]
    ensures key in cfg.fares && cfg.fares[key] > 0 ==> FareFor(cfg, service) == cfg.fares[key]
    ensures key !in cfg.fares || cfg.fares[key] <= 0 ==> FareFor(cfg, service) == cfg.defaultFare
    ensures FareFor(cfg, "") == cfg.defaultFare
  {
    assert Lower(service) == key;
  }

  /** A completed trip can be charged exactly when its fare is positive and the balance covers it: the zero fares of the
      default configuration are refused, not taken as free.  The fare leaves the balance and a row in the ledger. */
  lemma DeductExactly(cfg: Config, s: Store, user: string, service: string)
    requires user != ""
    ensures
      var (t, r) := DoDeduct(cfg, s, user, service);
      var fare, w := FareFor(cfg, service), View(s.wallets, user);
      && (r.Ok? <==> 0 < fare <= w.balance)
      && (r.Ok? && w.balance <= MAX_INT64 ==>
            Committed(s, t, Tx(user, fare, Deduction), Summary(w.balance - fare, w.points)))
      && (r.Err? ==> t == s)
  {
    if FareFor(cfg, service) > 0 { WrapDown(View(s.wallets, user).balance, FareFor(cfg, service)); }
  }

  lemma WrapDown(balance: int, fare: int)
    requires fare >= 0
    ensures fare <= balance <= MAX_INT64 ==> Wrap64(balance - fare) == balance - fare
  {
  }

  /** A reward is never refused to a rider; it adds the configured points and a row, or changes nothing to be seen when
      there are no points to give. */
  lemma RewardExactly(cfg: Config, s: Store, user: string)
    requires user != ""
    ensures
      var (t, r) := DoReward(cfg, s, user);
      var w := View(s.wallets, user);
      && r.Ok? && r.value == View(t.wallets, user)
      && (if cfg.rewardPoints <= 0 then SameViews(s, t)
          else Committed(s, t, Tx(user, cfg.rewardPoints, Reward), Summary(w.balance, Wrap64(w.points + cfg.rewardPoints))))
  {
  }

  /** The check before a trip passes exactly if the balance covers the fare, whose amount it tells, and nobody can see that
      it was made. */
  lemma EnsureExactly(cfg: Config, s: Store, user: string, service: string)
    ensures
      var (t, r) := DoEnsure(cfg, s, user, service);
      && (r.Ok? <==> user != "" && FareFor(cfg, service) <= View(s.wallets, user).balance)
      && (r.Ok? ==> r.value == FareFor(cfg, service))
      && (r == Err(InsufficientFunds) <==> user != "" && FareFor(cfg, service) > View(s.wallets, user).balance)
      && SameViews(s, t)
  {
  }

  lemma DefaultFaresRefused(s: Store, user: string, service: string)
    ensures DoDeduct(DEFAULT_CONFIG, s, user, service).1.Err?
  {
  }

  /** A top-up that the service admits leaves less than there was exactly when the sum does not fit the column. */
  lemma TopUpOverflowsExactly(cfg: Config, s: Store, user: string, amount: int)
    requires user != "" && 0 < amount <= MAX_INT64 && cfg.minTopUp <= amount <= cfg.maxTopUp
    requires 0 <= View(s.wallets, user).balance <= MAX_INT64
    ensures
      var (t, r) := DoTopUp(cfg, s, user, amount);
      && r.Ok?
      && (View(t.wallets, user).balance < View(s.wallets, user).balance <==>
            View(s.wallets, user).balance + amount > MAX_INT64)
  {
  }

  /** `n` largest top-ups of a new rider, one after another. */
  function TopUps(cfg: Config, user: string, n: nat): Store {
    if n == 0 then Store(map[], []) else DoTopUp(cfg, TopUps(cfg, user, n - 1), user, cfg.maxTopUp).0
  }

  lemma {:induction false} TopUpsHold(user: string, n: nat)
    requires user != ""
    ensures View(TopUps(DEFAULT_CONFIG, user, n).wallets, user).balance == Wrap64(5000000 * n)
  {
    if n > 0 {
      TopUpsHold(user, n - 1);
      WrapAdd(5000000 * (n - 1), 5000000);
    }
  }

  /** Under the default configuration a rider who keeps topping up ends with less than nothing: after 1844674407371
      top-ups the balance is negative. */
  lemma DefaultTopUpsOverflow(user: string, n: nat)
    requires user != "" && n == 1844674407371
    ensures View(TopUps(DEFAULT_CONFIG, user, n).wallets, user).balance == -9223372036854551616
  {
    TopUpsHold(user, n);
  }

  // ---------------------------------------------------------------- the objects of the source

  class WalletRepository {
    var wallets: map<string, Summary>
    var ledger: seq<Tx>

    constructor ()
      ensures Tables() == Store(map[], [])
    {
      wallets, ledger := map[], [];
    }

    function Tables(): Store reads this { Store(wallets, ledger) }

    /** `Get`: reads the wallet, creating its row when there is none.  `failed` says the database did. */
    method Get(user: string, failed: bool) returns (r: Result<Summary, Error>)
      modifies this
      ensures r == if user == "" then Err(UserRequired)
                   else if failed then Err(DatabaseFailure) else Ok(View(old(wallets), user))
      ensures Tables() == if r.Ok? then Touch(old(Tables()), user) else old(Tables())
    {
      if user == "" { return Err(UserRequired); }
      if failed { return Err(DatabaseFailure); }
      if user !in wallets {
        wallets := wallets[user := EMPTY_WALLET];
      }
      r := Ok(wallets[user]);
      assert wallets == old(wallets)[user := View(old(wallets), user)];
    }

    /** `ApplyTransaction`, alone in the database: commits what `Transact` says or rolls everything back. */
    method ApplyTransaction(tx: Tx, failed: bool) returns (r: Result<Summary, Error>)
      modifies this
      ensures !failed ==> (Tables(), r) == Transact(old(Tables()), tx)
      ensures failed ==> Tables() == old(Tables()) && r.Err?
    {
      if tx.user == "" { return Err(UserRequired); }
      if tx.amount < 0 { return Err(AmountNegative); }
      var savedWallets, savedLedger := wallets, ledger;
      if tx.user !in wallets {
        wallets := wallets[tx.user := EMPTY_WALLET];
      }
      var wallet := wallets[tx.user];
      match tx.kind {
        case TopUp => wallet := wallet.(balance := Wrap64(wallet.balance + tx.amount));
        case Deduction =>
          if wallet.balance < tx.amount {
            wallets := savedWallets;
            return Err(InsufficientFunds);
          }
          wallet := wallet.(balance := Wrap64(wallet.balance - tx.amount));
        case Reward => wallet := wallet.(points := Wrap64(wallet.points + tx.amount));
        case OtherKind(_) =>
          wallets := savedWallets;
          return Err(InvalidAmount);
      }
      wallets := wallets[tx.user := wallet];
      ledger := ledger + [tx];
      if failed {
        wallets, ledger := savedWallets, savedLedger;
        return Err(DatabaseFailure);
      }
      assert wallets == old(wallets)[tx.user := wallet];
      r := Ok(wallet);
    }
  }

  class WalletService {
    const repo: WalletRepository
    const cfg: Config

    constructor (repo: WalletRepository, cfg: Config)
      ensures this.repo == repo && this.cfg == cfg
    {
      this.repo, this.cfg := repo, cfg;
    }

    method ApplyTransaction(tx: Tx, failed: bool) returns (r: Result<Summary, Error>)
      modifies repo
      ensures !failed ==> (repo.Tables(), r) == ServiceTransact(cfg, old(repo.Tables()), tx)
      ensures failed ==> repo.Tables() == old(repo.Tables()) && r.Err?
    {
      if tx.user == "" { return Err(UserRequired); }
      if tx.amount <= 0 { return Err(InvalidAmount); }
      match tx.kind {
        case TopUp =>
          if tx.amount < cfg.minTopUp || tx.amount > cfg.maxTopUp { return Err(InvalidAmount); }
        case Deduction =>
        case Reward =>
        case OtherKind(_) => return Err(InvalidAmount);
      }
      r := repo.ApplyTransaction(tx, failed);
    }

    method TopUpWallet(user: string, amount: int, failed: bool) returns (r: Result<Summary, Error>)
      modifies repo
      ensures !failed ==> (repo.Tables(), r) == DoTopUp(cfg, old(repo.Tables()), user, amount)
      ensures failed ==> repo.Tables() == old(repo.Tables()) && r.Err?
    {
      if user == "" { return Err(UserRequired); }
      if amount < cfg.minTopUp || amount > cfg.maxTopUp { return Err(InvalidAmount); }
      r := ApplyTransaction(Tx(user, amount, TopUp), failed);
    }

    method EnsureBalanceForTrip(user: string, service: string, failed: bool) returns (r: Result<int, Error>)
      modifies repo
      ensures !failed ==> (repo.Tables(), r) == DoEnsure(cfg, old(repo.Tables()), user, service)
      ensures failed ==> repo.Tables() == old(repo.Tables()) && r.Err?
    {
      if user == "" { return Err(UserRequired); }
      var fare := FareFor(cfg, service);
      var summary := repo.Get(user, failed);
      if summary.Err? { return Err(summary.error); }
      r := if summary.value.balance < fare then Err(InsufficientFunds) else Ok(fare);
    }

    method DeductTripFare(user: string, service: string, failed: bool) returns (r: Result<Summary, Error>)
      modifies repo
      ensures !failed ==> (repo.Tables(), r) == DoDeduct(cfg, old(repo.Tables()), user, service)
      ensures failed ==> repo.Tables() == old(repo.Tables()) && r.Err?
    {
      if user == "" { return Err(UserRequired); }
      r := ApplyTransaction(Tx(user, FareFor(cfg, service), Deduction), failed);
    }

    method RewardTripCompletion(user: string, failed: bool) returns (r: Result<Summary, Error>)
      modifies repo
      ensures !failed ==> (repo.Tables(), r) == DoReward(cfg, old(repo.Tables()), user)
      ensures failed ==> repo.Tables() == old(repo.Tables()) && r.Err?
    {
      if user == "" { return Err(UserRequired); }
      if cfg.rewardPoints <= 0 {
        r := repo.Get(user, failed);
      } else {
        r := ApplyTransaction(Tx(user, cfg.rewardPoints, Reward), failed);
      }
    }
  }
}
