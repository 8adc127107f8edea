/** The balance ledger of `services/balance_system.rs`: two maps keyed by the
    player's uuid, one holding the committed balance and one holding the
    amount reserved for the player's active bet. The per-entry atomics and the
    read-write locks only make concurrent calls safe; every call is modelled
    as a pure transformer of the two maps. */
module BalanceSystem {
  import opened Ints
  import opened Wrappers
  import opened Ids

  /** Starting stake of an account created by `EnsureBalance`. */
  const DEFAULT_GUEST_BALANCE: uint64 := 999_900

  datatype Balances = Balances(balance: map<Uuid, uint64>, reserved: map<Uuid, uint64>)

  /** What an operation returns, together with the ledger it leaves behind. */
  datatype Step<+T> = Step(value: T, next: Balances)

  /** `BalanceSystem::new`: both maps empty. */
  function Empty(): (b: Balances)
    ensures b.balance == map[] && b.reserved == map[]
    ensures Valid(b)
  {
    Balances(map[], map[])
  }

  /** Balance of `u`, 0 when `u` has no entry (`map_or(0, ..)`). */
  function BalanceOf(b: Balances, u: Uuid): uint64 {
    if u in b.balance then b.balance[u] else 0
  }

  /** Reservation of `u`, 0 when `u` has no entry. */
  function ReservedOf(b: Balances, u: Uuid): uint64 {
    if u in b.reserved then b.reserved[u] else 0
  }

  /** The ledger invariant: every account has both entries, and no account has
      more reserved than it holds. */
  predicate Valid(b: Balances) {
    && b.balance.Keys == b.reserved.Keys
    && forall u :: u in b.reserved ==> b.reserved[u] <= b.balance[u]
  }

  /** `ensure_balance`: creates the account with the default stake and no
      reservation when absent; an existing entry is left as it is. */
  function EnsureBalance(b: Balances, u: Uuid): (r: Balances)
    ensures r.balance.Keys == b.balance.Keys + {u}
    ensures r.reserved.Keys == b.reserved.Keys + {u}
    ensures forall v :: v in b.balance ==> r.balance[v] == b.balance[v]
    ensures forall v :: v in b.reserved ==> r.reserved[v] == b.reserved[v]
    ensures u !in b.balance ==> r.balance[u] == DEFAULT_GUEST_BALANCE
    ensures u !in b.reserved ==> r.reserved[u] == 0
    ensures Valid(b) ==> Valid(r)
  {
    Balances(
      if u in b.balance then b.balance else b.balance[u := DEFAULT_GUEST_BALANCE],
      if u in b.reserved then b.reserved else b.reserved[u := 0])
  }

  /** `fetch_balance`: the available amount, balance minus reservation,
      saturating at zero; an unknown account has nothing available. */
  function FetchBalance(b: Balances, u: Uuid): (r: uint64)
    ensures ReservedOf(b, u) <= BalanceOf(b, u) ==> r + ReservedOf(b, u) == BalanceOf(b, u)
    ensures BalanceOf(b, u) < ReservedOf(b, u) ==> r == 0
    ensures u !in b.balance ==> r == 0
    ensures r <= BalanceOf(b, u)
  {
    SaturatingSub(BalanceOf(b, u), ReservedOf(b, u))
  }

  /** `saturating_sub` on u64: the difference when it is not negative, else 0. */
  function SaturatingSub(x: uint64, y: uint64): (r: uint64)
    ensures y <= x ==> r + y == x
    ensures x < y ==> r == 0
    ensures r <= x
  {
    if y <= x then x - y else 0
  }

  /** `add`, as written: `fetch_add` wraps the stored balance modulo 2^64. On
      an unknown account it fails and nothing changes. */
  function Add(b: Balances, u: Uuid, amount: uint64): (r: Step<Result<uint64>>)
    ensures u !in b.balance ==> r == Step(Err, b)
    ensures u in b.balance ==>
      && r.value.Ok?
      && r.next.reserved == b.reserved
      && r.next.balance.Keys == b.balance.Keys
      && r.value.value == r.next.balance[u]
      && (forall v :: v in b.balance && v != u ==> r.next.balance[v] == b.balance[v])
    ensures u in b.balance && b.balance[u] + amount < TWO_TO_THE_64 ==>
      r.value.value == b.balance[u] + amount
    ensures u in b.balance && b.balance[u] + amount >= TWO_TO_THE_64 ==>
      r.value.value == b.balance[u] + amount - TWO_TO_THE_64 && r.value.value < b.balance[u]
  {
    if u in b.balance then
      var n := WrappingAdd64(b.balance[u], amount);
      Step(Ok(n), b.(balance := b.balance[u := n]))
    else
      Step(Err, b)
  }

  /** `add` as evidently intended: a credit that would overflow the 64-bit
      balance is refused instead of wrapping. Keeps the ledger invariant for
      every input. */
  function CheckedAdd(b: Balances, u: Uuid, amount: uint64): (r: Step<Result<uint64>>)
    ensures r.value.Ok? <==> u in b.balance && b.balance[u] + amount < TWO_TO_THE_64
    ensures r.value.Ok? ==>
      && r.value.value == b.balance[u] + amount
      && r.next == b.(balance := b.balance[u := b.balance[u] + amount])
    ensures r.value.Err? ==> r.next == b
    ensures Valid(b) ==> Valid(r.next)
  {
    if u in b.balance && b.balance[u] + amount < TWO_TO_THE_64 then
      Add(b, u, amount)
    else
      Step(Err, b)
  }

  /** `sub`: succeeds only when the account exists and holds at least
      `amount`; otherwise nothing changes. */
  function Sub(b: Balances, u: Uuid, amount: uint64): (r: Step<Result<uint64>>)
    ensures r.value.Ok? <==> u in b.balance && amount <= b.balance[u]
    ensures r.value.Ok? ==>
      && r.value.value + amount == b.balance[u]
      && r.next == b.(balance := b.balance[u := r.value.value])
    ensures r.value.Err? ==> r.next == b
  {
    if u in b.balance && amount <= b.balance[u] then
      var n := b.balance[u] - amount;
      Step(Ok(n), b.(balance := b.balance[u := n]))
    else
      Step(Err, b)
  }

  /** `can_sub`: true exactly when `Sub` would succeed. */
  function CanSub(b: Balances, u: Uuid, amount: uint64): (r: bool)
    ensures r <==> Sub(b, u, amount).value.Ok?
  {
    u in b.balance && b.balance[u] >= amount
  }

  /** `reserve_bet_amount`: when the balance (not the available amount)
      covers `amount` and a reservation entry exists, the reservation is
      overwritten with `amount`; otherwise nothing changes. The balance is
      never touched. */
  function ReserveBetAmount(b: Balances, u: Uuid, amount: uint64): (r: Step<bool>)
    ensures r.value <==> CanSub(b, u, amount) && u in b.reserved
    ensures r.value ==> r.next.reserved == b.reserved[u := amount]
    ensures !r.value ==> r.next == b
    ensures r.next.balance == b.balance
    ensures Valid(b) ==> Valid(r.next)
  {
    if CanSub(b, u, amount) && u in b.reserved then
      Step(true, b.(reserved := b.reserved[u := amount]))
    else
      Step(false, b)
  }

  /** `commit_reserved_bet_amount`: debits the reserved amount when the
      balance covers it and zeroes the reservation in every case. */
  function CommitReservedBetAmount(b: Balances, u: Uuid): (r: Balances)
    ensures u !in b.reserved ==> r == b
    ensures u in b.reserved ==> r.reserved == b.reserved[u := 0]
    ensures u in b.reserved && u in b.balance && b.reserved[u] <= b.balance[u] ==>
      r.balance == b.balance[u := b.balance[u] - b.reserved[u]]
    ensures u in b.reserved && !(u in b.balance && b.reserved[u] <= b.balance[u]) ==>
      r.balance == b.balance
    ensures Valid(b) ==> Valid(r)
    ensures Valid(b) && u in b.reserved ==> BalanceOf(r, u) + b.reserved[u] == BalanceOf(b, u)
  {
    if u in b.reserved then
      var s := Sub(b, u, b.reserved[u]);
      s.next.(reserved := s.next.reserved[u := 0])
    else
      b
  }

  /** Creating an account twice is the same as creating it once. */
  lemma EnsureBalanceIdempotent(b: Balances, u: Uuid)
    ensures EnsureBalance(EnsureBalance(b, u), u) == EnsureBalance(b, u)
  {
  }

  /** Under the invariant the available amount and the reservation add up to
      the balance, so nothing is ever lost to the saturation. */
  lemma AvailablePlusReservedIsBalance(b: Balances, u: Uuid)
    requires Valid(b)
    ensures FetchBalance(b, u) + ReservedOf(b, u) == BalanceOf(b, u)
  {
  }

  /** On a valid ledger a registered account's reservation succeeds exactly
      when its balance covers the amount. */
  lemma ReserveSucceedsIffCovered(b: Balances, u: Uuid, amount: uint64)
    requires Valid(b)
    requires u in b.balance
    ensures ReserveBetAmount(b, u, amount).value <==> amount <= b.balance[u]
  {
  }

  /** Reserving and then committing debits exactly the reserved amount and
      leaves no reservation behind. */
  lemma ReserveThenCommit(b: Balances, u: Uuid, amount: uint64)
    requires Valid(b)
    requires ReserveBetAmount(b, u, amount).value
    ensures
      var c := CommitReservedBetAmount(ReserveBetAmount(b, u, amount).next, u);
      && Valid(c)
      && BalanceOf(c, u) + amount == BalanceOf(b, u)
      && ReservedOf(c, u) == 0
      && FetchBalance(c, u) == BalanceOf(c, u)
  {
  }

  /** As written, `add` keeps the invariant when the credit does not overflow. */
  lemma AddPreservesValid(b: Balances, u: Uuid, amount: uint64)
    requires Valid(b)
    requires BalanceOf(b, u) + amount < TWO_TO_THE_64
    ensures Valid(Add(b, u, amount).next)
  {
  }

  /** As written, `add` can wrap a balance below its reservation: an account
      holding 2^64 - 1 with 1 reserved is credited 1 and ends with balance 0. */
  lemma AddOverflowBreaksValid()
    ensures
      var b := Balances(map["p" := TWO_TO_THE_64 - 1], map["p" := 1]);
      && Valid(b)
      && Add(b, "p", 1).value == Ok(0)
      && !Valid(Add(b, "p", 1).next)
  {
    var b := Balances(map["p" := TWO_TO_THE_64 - 1], map["p" := 1]);
    var r := Add(b, "p", 1);
    assert r.next.balance["p"] == 0;
    assert r.next.reserved["p"] == 1;
  }

  /** The ledger operations reachable from the coordinator's side, with the
      overflow-checked credit. */
  datatype Op =
    | EnsureOp(u: Uuid)
    | CreditOp(u: Uuid, amount: uint64)
    | ReserveOp(u: Uuid, amount: uint64)
    | CommitOp(u: Uuid)

  function Apply(b: Balances, op: Op): Balances {
    match op
    case EnsureOp(u) => EnsureBalance(b, u)
    case CreditOp(u, amount) => CheckedAdd(b, u, amount).next
    case ReserveOp(u, amount) => ReserveBetAmount(b, u, amount).next
    case CommitOp(u) => CommitReservedBetAmount(b, u)
  }

  function ApplyAll(b: Balances, ops: seq<Op>): Balances
    decreases |ops|
  {
    if |ops| == 0 then b else ApplyAll(Apply(b, ops[0]), ops[1..])
  }

  /** Every ledger reachable from `Empty` by these operations has
      `reserved <= balance` for every account, so no player can have more
      locked than they hold and the available amount never saturates. */
  lemma {:induction false} ReachableLedgersValid(b: Balances, ops: seq<Op>)
    requires Valid(b)
    ensures Valid(ApplyAll(b, ops))
    ensures forall u :: FetchBalance(ApplyAll(b, ops), u) + ReservedOf(ApplyAll(b, ops), u)
                        == BalanceOf(ApplyAll(b, ops), u)
    decreases |ops|
  {
    if |ops| > 0 {
      ReachableLedgersValid(Apply(b, ops[0]), ops[1..]);
    }
  }
}
