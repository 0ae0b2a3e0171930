/**
 Least-used rotation under load: how far usage can drift apart between keys, and
 how far past its quota a key can be driven, when every crawl runs on one lease.
 */
module Rotation {
  import opened Prelude
  import opened Text
  import opened Sorting
  import opened KeyStore
  import TicketmasterCrawl

  const MAX_RETRIES: nat := 2

  /** What one HTTP attempt meets. */
  datatype Reply = Raised | Response(status: nat)

  predicate Transient(r: Reply) {
    r.Response? && (r.status == 429 || r.status >= 500)
  }

  /** How many attempts a request takes: up to the first answer that is not transient. */
  function Attempts(reply: nat -> Reply, from: nat): nat
    requires from <= MAX_RETRIES
    decreases MAX_RETRIES - from
  {
    if Transient(reply(from)) && from < MAX_RETRIES then 1 + Attempts(reply, from + 1) else 1
  }

  /** `_get_with_retry`: one usage record per attempt, retries included, and never more than three. */
  method GetWithRetry(reply: nat -> Reply) returns (outcome: Reply, recorded: seq<Reply>)
    ensures |recorded| == Attempts(reply, 0)
    ensures 1 <= |recorded| <= 3
    ensures forall i :: 0 <= i < |recorded| ==> recorded[i] == reply(i)
    ensures forall i :: 0 <= i < |recorded| - 1 ==>
              recorded[i].Response? && (recorded[i].status == 429 || recorded[i].status >= 500)
    ensures outcome == recorded[|recorded| - 1]
    ensures |recorded| < 3 && outcome.Response? ==> outcome.status != 429 && outcome.status < 500
  {
    var attempt := 0;
    recorded := [];
    while true
      invariant attempt == |recorded| <= MAX_RETRIES
      invariant attempt + Attempts(reply, attempt) == Attempts(reply, 0)
      invariant forall i :: 0 <= i < |recorded| ==> recorded[i] == reply(i) && Transient(recorded[i])
      decreases MAX_RETRIES - attempt
    {
      outcome := reply(attempt);
      recorded := recorded + [outcome];
      if Transient(outcome) && attempt < MAX_RETRIES {
        attempt := attempt + 1;
        continue;
      }
      return;
    }
  }

  /** Usage records of one crawl: one request per page, each with its own retries. */
  function CrawlUsage(requests: seq<nat -> Reply>): nat {
    if requests == [] then 0 else CrawlUsage(requests[..|requests| - 1]) + Attempts(requests[|requests| - 1], 0)
  }

  const CRAWL_CAP: nat := 240

  /** A crawl within its request budget reports at most 240 calls. */
  lemma {:induction false} CrawlUsageBounded(requests: seq<nat -> Reply>)
    ensures CrawlUsage(requests) <= |requests| * (MAX_RETRIES + 1)
    ensures |requests| <= TicketmasterCrawl.MAX_REQUESTS ==> CrawlUsage(requests) <= CRAWL_CAP
  {
    if requests != [] {
      CrawlUsageBounded(requests[..|requests| - 1]);
    }
  }

  /**
   What happens to the keys between two leases: a crawl on one lease, a deliberate disable,
   or an environment sync.
   */
  datatype Turn = Crawl(reports: nat, now: int) | Disable(id: string, now: int) | RefreshEnv(quota: int)

  function ReportCalls(st: Keys, id: string, calls: nat, now: int): Keys {
    if calls == 0 then st else Step(ReportCalls(st, id, calls - 1, now), Report(id, 1, false, now))
  }

  ghost predicate Leased(st: Keys, id: string) {
    Eligible(st, id) && ComesFirst(st, id)
  }

  ghost function LeaseOf(st: Keys): (lease: Option<string>)
    ensures lease.Some? ==> Leased(st, lease.value)
  {
    if exists id :: Leased(st, id) then
      var id :| Leased(st, id);
      Some(id)
    else None
  }

  /** A lease is found exactly when some key is eligible, and there is only one it can be. */
  lemma {:induction false} LeaseIsDetermined(st: Keys)
    ensures LeaseOf(st).Some? <==> exists id :: Eligible(st, id)
    ensures forall a, b :: Leased(st, a) && Leased(st, b) ==> a == b
  {
    RotationOrderTotal(st);
    var candidates := set id | id in st.inventory && Eligible(st, id);
    if id :| Eligible(st, id) {
      assert id in candidates;
      var first := Least(RotationOrder(st), candidates);
      assert forall other :: Eligible(st, other) ==> other in candidates && RotationOrder(st)(first, other);
      assert Leased(st, first);
    }
    forall a, b | Leased(st, a) && Leased(st, b)
      ensures a == b
    {
      assert RotationOrder(st)(a, b) && RotationOrder(st)(b, a);
    }
  }

  ghost function TakeTurn(st: Keys, turn: Turn): Keys {
    match turn
    case Crawl(reports, now) =>
      var lease := LeaseOf(st);
      if lease.Some? then ReportCalls(st, lease.value, reports, now) else st
    case Disable(id, now) => Step(st, Report(id, 0, true, now))
    case RefreshEnv(quota) => Step(st, SyncEnv(quota))
  }

  ghost function TakeTurns(st: Keys, turns: seq<Turn>): Keys {
    if turns == [] then st else TakeTurn(TakeTurns(st, turns[..|turns| - 1]), turns[|turns| - 1])
  }

  /** Every listed key has its hash and secret; the environment key is not listed. */
  ghost predicate Provisioned(st: Keys) {
    && ENV_KEY !in st.inventory
    && ActiveBelowQuota(st)
    && forall id :: id in st.inventory ==> id in st.hashes && st.hashes[id].secret != ""
  }

  ghost predicate ActiveIn(st: Keys, id: string) {
    id in st.inventory && id in st.hashes && st.hashes[id].status == Active
  }

  /** Active keys are within `c` of each other, and no key is `c` or more past its quota. */
  ghost predicate Balanced(st: Keys, c: nat) {
    && (forall a, b :: ActiveIn(st, a) && ActiveIn(st, b) ==> st.hashes[a].usage <= st.hashes[b].usage + c)
    && (forall id :: id in st.inventory && id in st.hashes && st.hashes[id].quota > 0 ==>
          st.hashes[id].usage < st.hashes[id].quota + c)
  }

  /** Reports on one key change that key only: its usage grows, and it never becomes active. */
  lemma {:induction false} ReportCallsSpec(st: Keys, id: string, calls: nat, now: int)
    requires id in st.hashes
    ensures var after := ReportCalls(st, id, calls, now);
            && after.inventory == st.inventory && after.hashes.Keys == st.hashes.Keys
            && (forall other :: other in st.hashes && other != id ==> after.hashes[other] == st.hashes[other])
            && after.hashes[id].usage == st.hashes[id].usage + calls
            && after.hashes[id].quota == st.hashes[id].quota && after.hashes[id].secret == st.hashes[id].secret
            && (after.hashes[id].status == Active ==> st.hashes[id].status == Active)
    ensures ActiveBelowQuota(st) ==> ActiveBelowQuota(ReportCalls(st, id, calls, now))
  {
    if calls > 0 {
      ReportCallsSpec(st, id, calls - 1, now);
    }
  }

  /** No active key has been used less than the one leased. */
  lemma {:induction false} LeaseIsLeastUsed(st: Keys, id: string, other: string)
    requires Provisioned(st) && Leased(st, id) && ActiveIn(st, other)
    ensures st.hashes[id].usage <= st.hashes[other].usage
  {
    assert Eligible(st, other);
  }

  lemma {:induction false} CrawlKeepsBalance(st: Keys, id: string, reports: nat, now: int, c: nat)
    requires Provisioned(st) && Balanced(st, c) && Leased(st, id) && reports <= c
    ensures Provisioned(ReportCalls(st, id, reports, now)) && Balanced(ReportCalls(st, id, reports, now), c)
  {
    ReportCallsSpec(st, id, reports, now);
    var after := ReportCalls(st, id, reports, now);
    forall a, b | ActiveIn(after, a) && ActiveIn(after, b)
      ensures after.hashes[a].usage <= after.hashes[b].usage + c
    {
      assert ActiveIn(st, a) && ActiveIn(st, b);
      LeaseIsLeastUsed(st, id, b);
    }
  }

  lemma {:induction false} TurnKeepsBalance(st: Keys, turn: Turn, c: nat)
    requires Provisioned(st) && Balanced(st, c) && (turn.Crawl? ==> turn.reports <= c)
    ensures Provisioned(TakeTurn(st, turn)) && Balanced(TakeTurn(st, turn), c)
  {
    match turn
    case Crawl(reports, now) =>
      var lease := LeaseOf(st);
      if lease.Some? { CrawlKeepsBalance(st, lease.value, reports, now, c); }
    case Disable(id, now) =>
      var after := Step(st, Report(id, 0, true, now));
      StepKeepsActiveBelowQuota(st, Report(id, 0, true, now));
      assert forall a :: ActiveIn(after, a) ==> ActiveIn(st, a) && after.hashes[a] == st.hashes[a];
    case RefreshEnv(quota) =>
      StepKeepsActiveBelowQuota(st, SyncEnv(quota));
      var after := Step(st, SyncEnv(quota));
      assert forall a :: ActiveIn(after, a) ==> ActiveIn(st, a) && after.hashes[a] == st.hashes[a];
  }

  /** All keys of the inventory start unused. */
  ghost predicate Unused(st: Keys) {
    forall id :: id in st.inventory && id in st.hashes ==> st.hashes[id].usage == 0
  }

  /**
   With one lease at a time and no reset or reseed, least-used selection keeps the
   active keys within one crawl of each other, and drives no key further past its
   quota than one crawl.
   */
  lemma {:induction false} RotationStaysBalanced(st: Keys, turns: seq<Turn>, c: nat)
    requires Provisioned(st) && Unused(st) && c > 0
    requires forall i :: 0 <= i < |turns| && turns[i].Crawl? ==> turns[i].reports <= c
    ensures Provisioned(TakeTurns(st, turns)) && Balanced(TakeTurns(st, turns), c)
  {
    if turns != [] {
      var init := turns[..|turns| - 1];
      assert forall i :: 0 <= i < |init| ==> init[i] == turns[i];
      RotationStaysBalanced(st, init, c);
      TurnKeepsBalance(TakeTurns(st, init), turns[|turns| - 1], c);
    }
  }

  /** A crawl's reports come from at most 80 requests of at most three attempts. */
  ghost predicate WithinBudget(turn: Turn) {
    turn.Crawl? ==> exists requests: seq<nat -> Reply> ::
      |requests| <= TicketmasterCrawl.MAX_REQUESTS && turn.reports <= CrawlUsage(requests)
  }

  /** With the crawl's own budgets the bound is 240. */
  lemma {:induction false} RotationBound(st: Keys, turns: seq<Turn>)
    requires Provisioned(st) && Unused(st)
    requires forall i :: 0 <= i < |turns| ==> WithinBudget(turns[i])
    ensures Balanced(TakeTurns(st, turns), CRAWL_CAP)
  {
    forall i | 0 <= i < |turns| && turns[i].Crawl?
      ensures turns[i].reports <= CRAWL_CAP
    {
      var requests: seq<nat -> Reply> :| |requests| <= TicketmasterCrawl.MAX_REQUESTS
          && turns[i].reports <= CrawlUsage(requests);
      CrawlUsageBounded(requests);
    }
    RotationStaysBalanced(st, turns, CRAWL_CAP);
  }
}
