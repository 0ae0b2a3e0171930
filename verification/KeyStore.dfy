/**
 The API-key store. Each Lua script is one atomic step, so usage reports, quota
 resets, seeds and environment syncs interleave freely; the lemmas hold after
 every interleaving.
 */
module KeyStore {
  import opened Prelude
  import opened Text
  import opened Sorting

  datatype Status = Active | Exhausted | Disabled

  /** One key hash. `updatedAt` is missing until a report, reset or seed has stamped it. */
  datatype Key = Key(secret: string, usage: nat, quota: int, status: Status, updatedAt: Option<int>)

  /** The key hashes, and the ids that take part in rotation. */
  datatype Keys = Keys(hashes: map<string, Key>, inventory: set<string>)

  const NO_KEYS: Keys := Keys(map[], {})
  const ENV_KEY: string := "env-ticketmaster"

  datatype Op =
    | Report(id: string, calls: int, disable: bool, now: int)
    | Reset(id: string, window: int, now: int)
    | Enlist(id: string)                                        // first half of a seed: SADD
    | Seed(id: string, secret: string, quota: int, now: int)    // second half: HSET
    | SyncEnv(quota: int)

  predicate OverQuota(usage: nat, quota: int) {
    quota > 0 && usage >= quota
  }

  /** `_REPORT_USAGE_LUA` on an existing hash. */
  function Reported(k: Key, calls: nat, disable: bool, now: int): Key {
    var usage := k.usage + calls;
    var status := if disable || k.status == Disabled then Disabled
                  else if OverQuota(usage, k.quota) then Exhausted else k.status;
    k.(usage := usage, status := status, updatedAt := Some(now))
  }

  /** The guard of `_RESET_EXHAUSTED_LUA`, behind the caller's check of the window. */
  predicate Resettable(k: Key, window: int, now: int) {
    window > 0 && k.status == Exhausted && now - k.updatedAt.GetOr(0) >= window
  }

  /** `_SYNC_ENV_QUOTA_LUA`: refresh the quota, keep counts and deliberate disables. */
  function Synced(k: Key, quota: int): Key {
    k.(quota := quota,
       status := if k.status == Disabled then Disabled else if OverQuota(k.usage, quota) then Exhausted else Active)
  }

  function Step(st: Keys, op: Op): Keys {
    match op
    case Report(id, calls, disable, now) =>
      if id in st.hashes then st.(hashes := st.hashes[id := Reported(st.hashes[id], Max(0, calls), disable, now)])
      else st
    case Reset(id, window, now) =>
      if ResetTakes(st, id, window, now) then
        st.(hashes := st.hashes[id := st.hashes[id].(usage := 0, status := Active, updatedAt := Some(now))])
      else st
    case Enlist(id) =>
      if ValidSeedId(id) then st.(inventory := st.inventory + {id}) else st
    case Seed(id, secret, quota, now) =>
      if ValidSeedId(id) && secret != "" then st.(hashes := st.hashes[id := Key(secret, 0, quota, Active, Some(now))])
      else st
    case SyncEnv(quota) =>
      var k := if ENV_KEY in st.hashes then st.hashes[ENV_KEY] else Key("", 0, quota, Active, None);
      st.(hashes := st.hashes[ENV_KEY := Synced(k, quota)])
  }

  /** Identifiers starting with "env-" are reserved. */
  predicate ValidSeedId(id: string) {
    Strip(id) == id && id != "" && !StartsWith(id, "env-")
  }

  predicate ResetTakes(st: Keys, id: string, window: int, now: int) {
    id in st.hashes && (id in st.inventory || id == ENV_KEY) && Resettable(st.hashes[id], window, now)
  }

  function Run(st: Keys, ops: seq<Op>): Keys {
    if ops == [] then st else Step(Run(st, ops[..|ops| - 1]), ops[|ops| - 1])
  }

  /** An active key with a positive quota has usage left. */
  ghost predicate ActiveBelowQuota(st: Keys) {
    forall id :: id in st.hashes && st.hashes[id].status == Active ==>
      !OverQuota(st.hashes[id].usage, st.hashes[id].quota)
  }

  lemma {:induction false} StepKeepsActiveBelowQuota(st: Keys, op: Op)
    requires ActiveBelowQuota(st)
    ensures ActiveBelowQuota(Step(st, op))
  {
  }

  /** Under every interleaving, an active key with positive quota is below it. */
  lemma {:induction false} ActiveKeysHaveQuotaLeft(ops: seq<Op>)
    ensures ActiveBelowQuota(Run(NO_KEYS, ops))
  {
    if ops != [] {
      ActiveKeysHaveQuotaLeft(ops[..|ops| - 1]);
      StepKeepsActiveBelowQuota(Run(NO_KEYS, ops[..|ops| - 1]), ops[|ops| - 1]);
    }
  }

  /** The step starts a fresh count for `id`: it seeds it, resets it, or creates the environment hash. */
  predicate Renews(st: Keys, op: Op, id: string) {
    match op
    case Seed(k, secret, _, _) => k == id && ValidSeedId(id) && secret != ""
    case Reset(k, window, now) => k == id && ResetTakes(st, id, window, now)
    case SyncEnv(_) => id == ENV_KEY && id !in st.hashes
    case _ => false
  }

  /** The calls a stretch of operations reports for one key. */
  function CallsIn(ops: seq<Op>, id: string): nat {
    if ops == [] then 0 else
      var last := ops[|ops| - 1];
      CallsIn(ops[..|ops| - 1], id) + (if last.Report? && last.id == id then Max(0, last.calls) else 0)
  }

  ghost predicate NoRenewalAfter(ops: seq<Op>, at: nat, id: string) {
    forall j :: at < j < |ops| ==> !Renews(Run(NO_KEYS, ops[..j]), ops[j], id)
  }

  /** A step that renews nothing adds what it reports, and nothing else. */
  lemma {:induction false} StepCounts(st: Keys, op: Op, id: string)
    requires !Renews(st, op, id)
    ensures id in Step(st, op).hashes <==> id in st.hashes
    ensures id in st.hashes ==>
              Step(st, op).hashes[id].usage == st.hashes[id].usage
                  + (if op.Report? && op.id == id then Max(0, op.calls) else 0)
  {
  }

  lemma {:induction false} RenewalStartsAtZero(st: Keys, op: Op, id: string)
    requires Renews(st, op, id)
    ensures id in Step(st, op).hashes && Step(st, op).hashes[id].usage == 0
  {
  }

  lemma {:induction false} CountStarts(ops: seq<Op>, id: string)
    requires |ops| > 0 && Renews(Run(NO_KEYS, ops[..|ops| - 1]), ops[|ops| - 1], id)
    ensures id in Run(NO_KEYS, ops).hashes && Run(NO_KEYS, ops).hashes[id].usage == 0
  {
    RenewalStartsAtZero(Run(NO_KEYS, ops[..|ops| - 1]), ops[|ops| - 1], id);
  }

  lemma {:induction false} NoRenewalInPrefix(ops: seq<Op>, at: nat, id: string)
    requires at < |ops| - 1 && NoRenewalAfter(ops, at, id)
    ensures NoRenewalAfter(ops[..|ops| - 1], at, id) && !Renews(Run(NO_KEYS, ops[..|ops| - 1]), ops[|ops| - 1], id)
  {
    var init := ops[..|ops| - 1];
    forall j | at < j < |init|
      ensures !Renews(Run(NO_KEYS, init[..j]), init[j], id)
    {
      assert init[..j] == ops[..j];
    }
  }

  lemma {:induction false} CallsInSuffix(ops: seq<Op>, from: nat, id: string)
    requires from < |ops|
    ensures CallsIn(ops[from..], id) == CallsIn(ops[..|ops| - 1][from..], id) + CallsIn([ops[|ops| - 1]], id)
  {
    var tail, last := ops[from..], [ops[|ops| - 1]];
    assert tail[..|tail| - 1] == ops[..|ops| - 1][from..];
    assert last[..0] == [];
  }

  /** A key's usage is exactly the calls reported since its count last started. */
  lemma {:induction false} UsageCountsCallsSinceRenewal(ops: seq<Op>, at: nat, id: string)
    requires at < |ops| && Renews(Run(NO_KEYS, ops[..at]), ops[at], id) && NoRenewalAfter(ops, at, id)
    ensures id in Run(NO_KEYS, ops).hashes
    ensures Run(NO_KEYS, ops).hashes[id].usage == CallsIn(ops[at + 1..], id)
    decreases |ops|
  {
    var init := ops[..|ops| - 1];
    if at == |init| {
      assert ops[at + 1..] == [] && CallsIn([], id) == 0;
      CountStarts(ops, id);
    } else {
      assert init[..at] == ops[..at] && init[at] == ops[at];
      NoRenewalInPrefix(ops, at, id);
      UsageCountsCallsSinceRenewal(init, at, id);
      UsageStep(ops, at, id);
    }
  }

  lemma {:induction false} UsageStep(ops: seq<Op>, at: nat, id: string)
    requires at < |ops| - 1 && !Renews(Run(NO_KEYS, ops[..|ops| - 1]), ops[|ops| - 1], id)
    requires id in Run(NO_KEYS, ops[..|ops| - 1]).hashes
    requires Run(NO_KEYS, ops[..|ops| - 1]).hashes[id].usage == CallsIn(ops[..|ops| - 1][at + 1..], id)
    ensures id in Run(NO_KEYS, ops).hashes && Run(NO_KEYS, ops).hashes[id].usage == CallsIn(ops[at + 1..], id)
  {
    var op := ops[|ops| - 1];
    StepCounts(Run(NO_KEYS, ops[..|ops| - 1]), op, id);
    CallsInSuffix(ops, at + 1, id);
    assert [op][..0] == [] && CallsIn([], id) == 0;
  }

  /** Every hash has a renewal behind it, so the count above covers every key. */
  lemma {:induction false} EveryHashWasRenewed(ops: seq<Op>, id: string)
    requires id in Run(NO_KEYS, ops).hashes
    ensures exists at: nat :: at < |ops| && Renews(Run(NO_KEYS, ops[..at]), ops[at], id) && NoRenewalAfter(ops, at, id)
  {
    var n := |ops| - 1;
    var init := ops[..n];
    if Renews(Run(NO_KEYS, init), ops[n], id) {
      assert NoRenewalAfter(ops, n, id);
    } else {
      StepCounts(Run(NO_KEYS, init), ops[n], id);
      EveryHashWasRenewed(init, id);
      var at: nat :| at < |init| && Renews(Run(NO_KEYS, init[..at]), init[at], id) && NoRenewalAfter(init, at, id);
      assert init[..at] == ops[..at];
      ExtendNoRenewal(ops, at, id);
    }
  }

  lemma {:induction false} ExtendNoRenewal(ops: seq<Op>, at: nat, id: string)
    requires |ops| > 0 && NoRenewalAfter(ops[..|ops| - 1], at, id)
    requires !Renews(Run(NO_KEYS, ops[..|ops| - 1]), ops[|ops| - 1], id)
    ensures NoRenewalAfter(ops, at, id)
  {
    var init := ops[..|ops| - 1];
    forall j | at < j < |ops|
      ensures !Renews(Run(NO_KEYS, ops[..j]), ops[j], id)
    {
      if j < |init| { assert init[..j] == ops[..j]; }
    }
  }

  predicate Seeds(op: Op, id: string) {
    op.Seed? && op.id == id
  }

  /** A disabled key stays disabled until it is seeded again. */
  lemma {:induction false} DisabledUntilSeeded(st: Keys, ops: seq<Op>, id: string)
    requires id in st.hashes && st.hashes[id].status == Disabled
    requires forall i :: 0 <= i < |ops| ==> !Seeds(ops[i], id)
    ensures id in Run(st, ops).hashes && Run(st, ops).hashes[id].status == Disabled
  {
    if ops != [] {
      var init := ops[..|ops| - 1];
      assert forall i :: 0 <= i < |init| ==> init[i] == ops[i];
      DisabledUntilSeeded(st, init, id);
      assert !Seeds(ops[|ops| - 1], id);
    }
  }

  /** The step stamps `id` with its own time. */
  predicate Stamps(st: Keys, op: Op, id: string, now: int) {
    match op
    case Report(k, _, _, t) => k == id && id in st.hashes && t == now
    case Reset(k, window, t) => k == id && ResetTakes(st, id, window, t) && t == now
    case Seed(k, secret, _, t) => k == id && ValidSeedId(id) && secret != "" && t == now
    case _ => false
  }

  ghost predicate LastStamp(ops: seq<Op>, at: nat, id: string, now: int) {
    && at < |ops| && Stamps(Run(NO_KEYS, ops[..at]), ops[at], id, now)
    && forall j, t :: at < j < |ops| ==> !Stamps(Run(NO_KEYS, ops[..j]), ops[j], id, t)
  }

  /** The recorded time of a key is the time of the last step that stamped it. */
  lemma {:induction false} UpdatedAtIsLastStamp(ops: seq<Op>, at: nat, id: string, now: int)
    requires LastStamp(ops, at, id, now)
    ensures id in Run(NO_KEYS, ops).hashes && Run(NO_KEYS, ops).hashes[id].updatedAt == Some(now)
    decreases |ops|
  {
    var n := |ops| - 1;
    var init := ops[..n];
    if at < n {
      assert init[..at] == ops[..at];
      forall j, t | at < j < |init|
        ensures !Stamps(Run(NO_KEYS, init[..j]), init[j], id, t)
      {
        assert init[..j] == ops[..j];
      }
      UpdatedAtIsLastStamp(init, at, id, now);
      var op := ops[n];
      assert !Stamps(Run(NO_KEYS, init), op, id, if op.Report? || op.Reset? || op.Seed? then op.now else 0);
    }
  }

  /** A key that has been used, or is exhausted, has been stamped. */
  ghost predicate UsedIsStamped(st: Keys) {
    forall id :: id in st.hashes && (st.hashes[id].usage > 0 || st.hashes[id].status == Exhausted) ==>
      st.hashes[id].updatedAt.Some?
  }

  /** An exhausted key has been used. */
  ghost predicate ExhaustedIsUsed(st: Keys) {
    forall id :: id in st.hashes && st.hashes[id].status == Exhausted ==> st.hashes[id].usage > 0
  }

  lemma {:induction false} StepKeepsStamps(st: Keys, op: Op)
    requires UsedIsStamped(st) && ExhaustedIsUsed(st)
    ensures UsedIsStamped(Step(st, op)) && ExhaustedIsUsed(Step(st, op))
  {
  }

  lemma {:induction false} RunKeepsStamps(ops: seq<Op>)
    ensures UsedIsStamped(Run(NO_KEYS, ops)) && ExhaustedIsUsed(Run(NO_KEYS, ops))
  {
    if ops != [] {
      RunKeepsStamps(ops[..|ops| - 1]);
      StepKeepsStamps(Run(NO_KEYS, ops[..|ops| - 1]), ops[|ops| - 1]);
    }
  }

  /** Behind every recorded time stands the step that stamped it. */
  lemma {:induction false} RecordedTimeWasStamped(ops: seq<Op>, id: string) returns (at: nat)
    requires id in Run(NO_KEYS, ops).hashes && Run(NO_KEYS, ops).hashes[id].updatedAt.Some?
    ensures LastStamp(ops, at, id, Run(NO_KEYS, ops).hashes[id].updatedAt.value)
  {
    var n := |ops| - 1;
    var init, op, now := ops[..n], ops[n], Run(NO_KEYS, ops).hashes[id].updatedAt.value;
    if Stamps(Run(NO_KEYS, init), op, id, now) {
      at := n;
    } else {
      StampsNothingElse(Run(NO_KEYS, init), op, id);
      at := RecordedTimeWasStamped(init, id);
      assert init[..at] == ops[..at];
      forall j, t | at < j < |ops|
        ensures !Stamps(Run(NO_KEYS, ops[..j]), ops[j], id, t)
      {
        if j < n { assert init[..j] == ops[..j]; }
      }
    }
  }

  /** A step either stamps a key with its own time or leaves its recorded time alone. */
  lemma {:induction false} StampsNothingElse(st: Keys, op: Op, id: string)
    requires id in Step(st, op).hashes && Step(st, op).hashes[id].updatedAt.Some?
    requires !Stamps(st, op, id, Step(st, op).hashes[id].updatedAt.value)
    ensures id in st.hashes && st.hashes[id].updatedAt == Step(st, op).hashes[id].updatedAt
    ensures forall t :: !Stamps(st, op, id, t)
  {
  }

  /**
   In every reachable state a reset takes effect exactly on an exhausted key of the
   rotation whose last stamping step lies at least a full window back.
   */
  lemma {:induction false} ResetWaitsOutTheWindow(ops: seq<Op>, id: string, window: int, now: int)
    ensures var st := Run(NO_KEYS, ops);
      ResetTakes(st, id, window, now) <==>
        && id in st.hashes && (id in st.inventory || id == ENV_KEY)
        && st.hashes[id].status == Exhausted && window > 0
        && exists at: nat, stamped: int :: LastStamp(ops, at, id, stamped) && now - stamped >= window
  {
    var st := Run(NO_KEYS, ops);
    if ResetTakes(st, id, window, now) {
      RunKeepsStamps(ops);
      var at := RecordedTimeWasStamped(ops, id);
      assert LastStamp(ops, at, id, st.hashes[id].updatedAt.value);
    }
    forall at: nat, stamped: int | LastStamp(ops, at, id, stamped)
      ensures id in st.hashes && st.hashes[id].updatedAt == Some(stamped)
    {
      UpdatedAtIsLastStamp(ops, at, id, stamped);
    }
  }

  datatype Lease = Lease(id: string, secret: string, fromEnv: bool)

  datatype LeaseError = NoActiveKey

  /**
   Where a key stands, save for deliberate disables, follows from its count: exhausted at
   the quota, active below it.
   */
  ghost predicate StatusFollowsCount(st: Keys) {
    forall id :: id in st.hashes && st.hashes[id].status != Disabled ==>
      (st.hashes[id].status == Exhausted <==> 0 < st.hashes[id].quota <= st.hashes[id].usage)
  }

  lemma {:induction false} StepKeepsStatus(st: Keys, op: Op)
    requires StatusFollowsCount(st)
    ensures StatusFollowsCount(Step(st, op))
  {
  }

  /** In every reachable state. */
  lemma {:induction false} StatusIsExact(ops: seq<Op>)
    ensures StatusFollowsCount(Run(NO_KEYS, ops))
  {
    if ops != [] {
      StatusIsExact(ops[..|ops| - 1]);
      StepKeepsStatus(Run(NO_KEYS, ops[..|ops| - 1]), ops[|ops| - 1]);
    }
  }

  /**
   What the operator sets stays: only a seed gives a key its secret, and only a report that
   asks for it disables one.
   */
  lemma {:induction false} StepKeepsSettings(st: Keys, op: Op, id: string)
    requires id in st.hashes
    ensures id in Step(st, op).hashes
    ensures !Seeds(op, id) ==> Step(st, op).hashes[id].secret == st.hashes[id].secret
    ensures !Seeds(op, id) && id != ENV_KEY ==> Step(st, op).hashes[id].quota == st.hashes[id].quota
    ensures Step(st, op).hashes[id].status == Disabled && st.hashes[id].status != Disabled ==>
              op.Report? && op.id == id && op.disable
    ensures op.Report? && op.id == id && op.disable ==> Step(st, op).hashes[id].status == Disabled
    ensures op.SyncEnv? && id == ENV_KEY ==> Step(st, op).hashes[id].quota == op.quota
    ensures op.Seed? && op.id == id && ValidSeedId(id) && op.secret != "" ==>
              Step(st, op).hashes[id] == Key(op.secret, 0, op.quota, Active, Some(op.now))
  {
  }

  /** From the moment a key is disabled, no lease names it until it is seeded again. */
  lemma {:induction false} DisabledIsNotLeased(st: Keys, ops: seq<Op>, id: string, ids: set<string>,
                                               seen: string -> Keys)
    requires id in st.hashes && st.hashes[id].status == Disabled
    requires forall i :: 0 <= i < |ops| ==> !Seeds(ops[i], id)
    requires seen(id) == Run(st, ops)
    ensures !FirstSeen(ids, seen, id) && !Eligible(Run(st, ops), id)
  {
    DisabledUntilSeeded(st, ops, id);
  }

  /** The hash of a key `get_active_key` may hand out. */
  predicate Usable(st: Keys, id: string) {
    && id in st.hashes
    && st.hashes[id].secret != ""
    && st.hashes[id].status == Active
    && !OverQuota(st.hashes[id].usage, st.hashes[id].quota)
  }

  predicate Eligible(st: Keys, id: string) {
    id in st.inventory && Usable(st, id)
  }

  function UsageOf(st: Keys, id: string): nat {
    if id in st.hashes then st.hashes[id].usage else 0
  }

  /** `(usage_count, key_id)` order. */
  predicate ByUsage(usageA: nat, a: string, usageB: nat, b: string) {
    usageA < usageB || (usageA == usageB && LexLeq(a, b))
  }

  function UsageOrder(usage: string -> nat): (string, string) -> bool {
    (a, b) => ByUsage(usage(a), a, usage(b), b)
  }

  lemma {:induction false} UsageOrderTotal(usage: string -> nat)
    ensures TotalOrder(UsageOrder(usage))
  {
    var leq := UsageOrder(usage);
    forall a, b
      ensures leq(a, b) || leq(b, a)
      ensures leq(a, b) && leq(b, a) ==> a == b
    {
      assert leq(a, b) == ByUsage(usage(a), a, usage(b), b) && leq(b, a) == ByUsage(usage(b), b, usage(a), a);
      LexTotal(a, b);
      if LexLeq(a, b) && LexLeq(b, a) { LexAntisymmetric(a, b); }
    }
    forall a, b, c | leq(a, b) && leq(b, c)
      ensures leq(a, c)
    {
      assert leq(a, b) == ByUsage(usage(a), a, usage(b), b) && leq(b, c) == ByUsage(usage(b), b, usage(c), c);
      assert leq(a, c) == ByUsage(usage(a), a, usage(c), c);
      if LexLeq(a, b) && LexLeq(b, c) { LexTransitive(a, b, c); }
    }
  }

  predicate BeforeInRotation(st: Keys, a: string, b: string) {
    ByUsage(UsageOf(st, a), a, UsageOf(st, b), b)
  }

  function RotationOrder(st: Keys): (string, string) -> bool {
    UsageOrder(id => UsageOf(st, id))
  }

  lemma {:induction false} RotationOrderTotal(st: Keys)
    ensures TotalOrder(RotationOrder(st))
    ensures forall a, b :: RotationOrder(st)(a, b) <==> BeforeInRotation(st, a, b)
  {
    UsageOrderTotal(id => UsageOf(st, id));
  }

  /** The listed keys whose reset takes effect. */
  function Taken(st: Keys, ids: seq<string>, window: int, now: int): seq<string> {
    if ids == [] then [] else
      Taken(st, ids[..|ids| - 1], window, now)
      + (if ResetTakes(st, ids[|ids| - 1], window, now) then [ids[|ids| - 1]] else [])
  }

  lemma {:induction false} TakenMembers(st: Keys, ids: seq<string>, window: int, now: int)
    ensures forall id :: id in Taken(st, ids, window, now) <==> id in ids && ResetTakes(st, id, window, now)
  {
    if ids != [] {
      assert ids == ids[..|ids| - 1] + [ids[|ids| - 1]];
      TakenMembers(st, ids[..|ids| - 1], window, now);
    }
  }

  lemma {:induction false} TakenIsSorted(st: Keys, ids: seq<string>, window: int, now: int)
    requires SortedBy(LexOrder(), ids)
    ensures SortedBy(LexOrder(), Taken(st, ids, window, now))
  {
    if ids != [] {
      var init, last := ids[..|ids| - 1], ids[|ids| - 1];
      TakenIsSorted(st, init, window, now);
      TakenMembers(st, init, window, now);
      var taken := Taken(st, init, window, now);
      forall k | 0 <= k < |taken|
        ensures LexOrder()(taken[k], last)
      {
        assert taken[k] in init;
        var p :| 0 <= p < |init| && init[p] == taken[k];
        assert LexOrder()(ids[p], ids[|ids| - 1]);
      }
    }
  }

  /** The store with a fresh count, status and stamp on these keys. */
  function Renewed(st: Keys, ids: seq<string>, now: int): Keys {
    st.(hashes := map id | id in st.hashes ::
          if id in ids then st.hashes[id].(usage := 0, status := Active, updatedAt := Some(now)) else st.hashes[id])
  }

  /** Renewing some keys decides nothing about another, which its own reset then renews like them. */
  lemma {:induction false} RenewedOthers(st: Keys, ids: seq<string>, id: string, window: int, now: int)
    requires id !in ids
    ensures ResetTakes(Renewed(st, ids, now), id, window, now) == ResetTakes(st, id, window, now)
    ensures Step(Renewed(st, ids, now), Reset(id, window, now)) ==
            if ResetTakes(st, id, window, now) then Renewed(st, ids + [id], now) else Renewed(st, ids, now)
  {
  }

  class SecretsStore {
    var hashes: map<string, Key>
    var inventory: set<string>

    function Contents(): Keys
      reads this
    {
      Keys(hashes, inventory)
    }

    constructor ()
      ensures Contents() == NO_KEYS
    {
      hashes, inventory := map[], {};
    }

    /** `report_usage`: false stands for a blank id or an unknown key. */
    method ReportUsage(keyId: string, calls: int, disable: bool, now: int) returns (known: bool)
      modifies this`hashes
      ensures known == (Strip(keyId) != "" && Strip(keyId) in old(hashes))
      ensures Contents() == if known then Step(old(Contents()), Report(Strip(keyId), calls, disable, now))
              else old(Contents())
    {
      var id := Strip(keyId);
      if id == "" || id !in hashes {
        return false;
      }
      var k := hashes[id];
      var usage: nat := k.usage + Max(0, calls);
      var status := k.status;
      if disable || status == Disabled {
        status := Disabled;
      } else if k.quota > 0 && usage >= k.quota {
        status := Exhausted;
      }
      hashes := hashes[id := k.(usage := usage, status := status, updatedAt := Some(now))];
      known := true;
    }

    /** `_RESET_EXHAUSTED_LUA` on one key. */
    method ResetKey(id: string, window: int, now: int) returns (reset: bool)
      requires window > 0 && (id in inventory || id == ENV_KEY)
      modifies this`hashes
      ensures reset == ResetTakes(old(Contents()), id, window, now)
      ensures Contents() == Step(old(Contents()), Reset(id, window, now))
    {
      if id !in hashes || hashes[id].status != Exhausted {
        return false;
      }
      var updated := hashes[id].updatedAt.GetOr(0);
      if now - updated < window {
        return false;
      }
      hashes := hashes[id := hashes[id].(usage := 0, status := Active, updatedAt := Some(now))];
      reset := true;
    }

    /** The reset loop: one script for each listed key. */
    method ResetEach(ids: seq<string>, window: int, now: int) returns (resetIds: seq<string>)
      requires window > 0 && forall id :: id in ids ==> id in inventory || id == ENV_KEY
      requires SortedBy(LexOrder(), ids) && forall i, j :: 0 <= i < j < |ids| ==> ids[i] != ids[j]
      modifies this`hashes
      ensures resetIds == Taken(old(Contents()), ids, window, now)
      ensures Contents() == Renewed(old(Contents()), resetIds, now)
    {
      resetIds := [];
      ghost var before := Contents();
      for i := 0 to |ids|
        invariant Contents() == Renewed(before, resetIds, now)
        invariant resetIds == Taken(before, ids[..i], window, now)
      {
        assert ids[..i + 1][..i] == ids[..i];
        TakenMembers(before, ids[..i], window, now);
        RenewedOthers(before, resetIds, ids[i], window, now);
        var reset := ResetKey(ids[i], window, now);
        if reset {
          resetIds := resetIds + [ids[i]];
        }
      }
      assert ids[..|ids|] == ids;
    }

    /**
     `reset_exhausted_keys`: the inventory and the environment key, in id order.
     Exactly the keys whose window has rolled over start afresh.
     */
    method ResetExhausted(window: int, now: int) returns (resetIds: seq<string>)
      modifies this`hashes
      ensures forall id :: id in resetIds <==> ResetTakes(old(Contents()), id, window, now)
      ensures SortedBy(LexOrder(), resetIds)
      ensures Contents() == Renewed(old(Contents()), resetIds, now)
    {
      if window <= 0 {
        return [];
      }
      var keyIds := if ENV_KEY in hashes then inventory + {ENV_KEY} else inventory;
      LexOrderTotal();
      var ids := SortSet(LexOrder(), keyIds);
      SortSetSpec(LexOrder(), keyIds);
      SortSetDistinct(LexOrder(), keyIds);
      TakenMembers(Contents(), ids, window, now);
      TakenIsSorted(Contents(), ids, window, now);
      resetIds := ResetEach(ids, window, now);
    }

    /** `_fallback_env_key`'s atomic refresh. */
    method SyncEnvQuota(quota: int)
      modifies this`hashes
      ensures Contents() == Step(old(Contents()), SyncEnv(quota))
    {
      var k := Key("", 0, quota, Active, None);
      if ENV_KEY in hashes {
        k := hashes[ENV_KEY];
      }
      var status := k.status;
      if status != Disabled {
        status := if quota > 0 && k.usage >= quota then Exhausted else Active;
      }
      hashes := hashes[ENV_KEY := k.(quota := quota, status := status)];
    }

    /** `seed_key`: both halves, when nothing comes between them. False stands for the argument errors. */
    method SeedKey(keyId: string, secret: string, quota: int, now: int) returns (accepted: bool)
      modifies this
      ensures accepted == (ValidSeedId(Strip(keyId)) && secret != "")
      ensures accepted ==>
                Contents() ==
                Step(Step(old(Contents()), Enlist(Strip(keyId))), Seed(Strip(keyId), secret, quota, now))
      ensures !accepted ==> Contents() == old(Contents())
    {
      var id := Strip(keyId);
      StripTrims(keyId);
      if id == "" || secret == "" || StartsWith(id, "env-") {
        return false;
      }
      inventory := inventory + {id};
      hashes := hashes[id := Key(secret, 0, quota, Active, Some(now))];
      accepted := true;
    }

    /** Read the hashes of the listed ids one by one, then take the first usable key by usage and id. */
    method LeastUsed(ids: set<string>, seen: string -> Keys) returns (best: Option<string>)
      ensures best.Some? ==> FirstSeen(ids, seen, best.value)
      ensures best.Some? ==>
                var hashes := seen(best.value).hashes;
                && best.value in ids && best.value in hashes
                && hashes[best.value].secret != "" && hashes[best.value].status == Active
                && (hashes[best.value].quota > 0 ==> hashes[best.value].usage < hashes[best.value].quota)
      ensures best.None? ==>
                forall id :: id in ids ==>
                  var hashes := seen(id).hashes;
                  || id !in hashes || hashes[id].secret == "" || hashes[id].status != Active
                  || 0 < hashes[id].quota <= hashes[id].usage
    {
      var candidates, rest: set<string> := {}, ids;
      while rest != {}
        invariant rest <= ids
        invariant forall id :: id in candidates <==> id in ids - rest && Usable(seen(id), id)
        decreases rest
      {
        var id :| id in rest;
        if Usable(seen(id), id) {
          candidates := candidates + {id};
        }
        rest := rest - {id};
      }
      if candidates == {} {
        return None;
      }
      var usage := id => UsageOf(seen(id), id);
      UsageOrderTotal(usage);
      best := Some(Least(UsageOrder(usage), candidates));
      assert forall other :: other in candidates ==> UsageOrder(usage)(best.value, other);
    }

    /** `_fallback_env_key`: the environment key, within its own quota and status. */
    method FallbackEnvKey(fallback: bool, envSecret: string, envQuota: int) returns (lease: Option<Lease>)
      modifies this`hashes
      ensures Contents() == if fallback && envSecret != "" then Step(old(Contents()), SyncEnv(envQuota))
              else old(Contents())
      ensures lease.Some? <==>
                && fallback && envSecret != "" && ENV_KEY in hashes && hashes[ENV_KEY].status == Active
                && (hashes[ENV_KEY].quota > 0 ==> hashes[ENV_KEY].usage < hashes[ENV_KEY].quota)
      ensures lease.Some? ==> lease.value == Lease(ENV_KEY, envSecret, true)
    {
      if !fallback || envSecret == "" {
        return None;
      }
      SyncEnvQuota(envQuota);
      var k := hashes[ENV_KEY];
      if k.status != Active || (k.quota > 0 && k.usage >= k.quota) {
        return None;
      }
      lease := Some(Lease(ENV_KEY, envSecret, true));
    }

    /**
     `get_active_key`. The ids are listed once and their hashes read one after the
     other, so each key is judged by the store as it stood when it was read
     (`seen`). The environment key is handed out only when no id was listed, and
     then only within its quota: a configured inventory fails closed.
     */
    method GetActiveKey(ids: set<string>, seen: string -> Keys, fallback: bool, envSecret: string, envQuota: int)
      returns (r: Result<Lease, LeaseError>)
      modifies this`hashes
      ensures ids != {} ==> Contents() == old(Contents())
      ensures ids != {} && r.Ok? ==>
                !r.value.fromEnv && FirstSeen(ids, seen, r.value.id)
                && r.value.secret == seen(r.value.id).hashes[r.value.id].secret
      ensures ids != {} && r.Ok? ==>
                var id, hashes := r.value.id, seen(r.value.id).hashes;
                && id in ids && id in hashes && hashes[id].secret != "" && hashes[id].status == Active
                && (hashes[id].quota > 0 ==> hashes[id].usage < hashes[id].quota)
      ensures ids != {} && r.Err? ==>
                forall id :: id in ids ==>
                  var hashes := seen(id).hashes;
                  || id !in hashes || hashes[id].secret == "" || hashes[id].status != Active
                  || 0 < hashes[id].quota <= hashes[id].usage
      ensures ids == {} ==>
                (r.Ok? <==>
                 && fallback && envSecret != "" && ENV_KEY in hashes && hashes[ENV_KEY].status == Active
                 && (hashes[ENV_KEY].quota > 0 ==> hashes[ENV_KEY].usage < hashes[ENV_KEY].quota))
      ensures ids == {} && r.Ok? ==> r.value == Lease(ENV_KEY, envSecret, true)
    {
      var best := LeastUsed(ids, seen);
      if best.Some? {
        return Ok(Lease(best.value, seen(best.value).hashes[best.value].secret, false));
      }
      if ids == {} {
        var lease := FallbackEnvKey(fallback, envSecret, envQuota);
        if lease.Some? {
          return Ok(lease.value);
        }
      }
      r := Err(NoActiveKey);
    }
  }

  /** A listed key, usable when it was read, and first by usage and id among all that were. */
  ghost predicate FirstSeen(ids: set<string>, seen: string -> Keys, id: string) {
    && id in ids && Usable(seen(id), id)
    && forall other :: other in ids && Usable(seen(other), other) ==>
         ByUsage(UsageOf(seen(id), id), id, UsageOf(seen(other), other), other)
  }

  /** When nothing happens in between, that is the one eligible key that comes first in rotation. */
  lemma {:induction false} QuietReadsLeaseFirst(st: Keys, seen: string -> Keys, id: string)
    requires forall other :: seen(other) == st
    ensures FirstSeen(st.inventory, seen, id) <==> Eligible(st, id) && ComesFirst(st, id)
  {
    assert Eligible(st, id) <==> id in st.inventory && Usable(seen(id), id);
    forall other
      ensures Eligible(st, other) <==> other in st.inventory && Usable(seen(other), other)
      ensures BeforeInRotation(st, id, other) <==>
              ByUsage(UsageOf(seen(id), id), id, UsageOf(seen(other), other), other)
    {
      assert seen(other) == st && seen(id) == st;
    }
  }

  /** No eligible key comes before this one in rotation. */
  ghost predicate ComesFirst(st: Keys, id: string) {
    forall other :: Eligible(st, other) ==> BeforeInRotation(st, id, other)
  }
}
