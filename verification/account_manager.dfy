/** The account manager view: it adds API keys and accounts, checks one
    account at a time (validation of its login, or a test of its API
    connectivity), runs a check over every account in turn while publishing
    its progress, and shows the latest snapshot of the account queue. The
    view's React state is the `AccountManager` object. */
module AccountManagement {
  import opened Wrappers
  import opened JsString
  import opened Notices

  /** A configured account; either identifier may be empty. */
  datatype Account = Account(email: string, mobile: string)

  /** The add-account form. */
  datatype NewAccount = NewAccount(email: string, mobile: string, password: string)

  const BlankAccount: NewAccount := NewAccount([], [], [])

  /** The two checks an account can be put through: validation of its login
      (`/admin/accounts/validate`) and a test of its API connectivity
      (`/admin/accounts/test`). */
  datatype Operation = Validate | Test

  /** What the check endpoint makes of one account: a reply with the
      verdict (`valid` for a validation, `success` for a test), the
      `message` and the `response_time` the server may include; or the
      message of the error the request threw. */
  datatype Outcome = Ok(success: bool, message: string, time: Option<nat>) | Throw(message: string)

  /** One entry of a batch's `results`. */
  datatype BatchResult = BatchResult(id: string, success: bool, message: string, time: Option<nat>)

  /** The published `batchProgress`. */
  datatype BatchProgress = BatchProgress(current: nat, total: nat, results: seq<BatchResult>)

  /** The account queue counters shown above the lists. */
  datatype QueueStatus = QueueStatus(available: int, inUse: int, total: int)

  /** What one poll of `/admin/queue/status` yields. */
  datatype PollOutcome = PollOk(status: QueueStatus) | PollNotOk | PollThrew

  /** What the endpoint that adds a key or an account replies: OK, a non-2xx
      reply with its `detail` ("" when absent), or a thrown request. */
  datatype SubmitReply = Accepted | Refused(detail: string) | Unreachable

  /** A request the view sends. */
  datatype Request =
    | AddKeyRequest(key: string)              // POST /admin/keys
    | AddAccountRequest(account: NewAccount)  // POST /admin/accounts
    | Check(op: Operation, identifier: string) // POST /admin/accounts/validate or /test
    | QueueStatusRequest                      // GET /admin/queue/status

  /** The in-flight flags of single checks, by identifier; an identifier
      with no entry is not in flight. */
  type Flags = map<string, bool>

  /** The identifier an account is checked under: its email, else its
      mobile number. It is empty only when both are. */
  function Identifier(acc: Account): (id: string)
    ensures id != [] <==> acc.email != [] || acc.mobile != []
    ensures acc.email != [] ==> id == acc.email
    ensures acc.email == [] ==> id == acc.mobile
  {
    if acc.email != [] then acc.email else acc.mobile
  }

  /** The add-account form may be submitted: it has a password and at least
      one of an email and a mobile number, so that the account it adds has a
      non-empty identifier. */
  predicate CanAddAccount(a: NewAccount): (ok: bool)
    ensures ok <==> a.password != [] && Identifier(Account(a.email, a.mobile)) != []
  {
    a.password != [] && (a.email != [] || a.mobile != [])
  }

  /** The key the add-key form submits: the typed key without surrounding
      whitespace; nothing when the typed key is only whitespace. */
  function KeyToSubmit(newKey: string): (key: Option<string>)
    ensures key.None? <==> AllWhitespace(newKey)
    ensures key.Some? ==> key.value == Trim(newKey)
    ensures key.Some? ==> key.value != [] && !IsWhitespace(key.value[0])
                          && !IsWhitespace(key.value[|key.value| - 1])
  {
    TrimSpec(newKey);
    var t := Trim(newKey);
    if t == [] then None else Some(t)
  }

  /** How a key is shown in the key list: its first 16 characters (all of a
      shorter key) followed by four asterisks. */
  function KeyPreview(key: string): (preview: string)
    ensures |preview| == (if |key| < 16 then |key| else 16) + 4
    ensures preview[..|preview| - 4] == key[..|preview| - 4]
    ensures preview[|preview| - 4..] == "****"
  {
    (if |key| < 16 then key else key[..16]) + "****"
  }

  /** Two keys that agree on their first 16 characters look the same in the
      key list: nothing after them is shown. */
  lemma PreviewHidesTheRest(k1: string, k2: string)
    requires |k1| >= 16 && |k2| >= 16 && k1[..16] == k2[..16]
    ensures KeyPreview(k1) == KeyPreview(k2)
  {
  }

  /** `{ ...flags, [id]: v }` */
  function WithFlag(flags: Flags, id: string, v: bool): (r: Flags)
    ensures id in r && r[id] == v
    ensures forall other :: other != id ==> (other in r <==> other in flags)
    ensures forall other :: other != id && other in flags ==> r[other] == flags[other]
  {
    flags[id := v]
  }

  /** An identifier is in flight when its flag is set. */
  predicate InFlight(flags: Flags, id: string) {
    id in flags && flags[id]
  }

  /** Setting and then clearing an identifier's flag clears it and leaves
      every other identifier as it was. */
  lemma SetThenClear(flags: Flags, id: string)
    ensures WithFlag(WithFlag(flags, id, true), id, false) == WithFlag(flags, id, false)
    ensures !InFlight(WithFlag(WithFlag(flags, id, true), id, false), id)
    ensures forall other :: other != id ==>
              InFlight(WithFlag(WithFlag(flags, id, true), id, false), other) == InFlight(flags, other)
  {
    assert WithFlag(WithFlag(flags, id, true), id, false) == WithFlag(flags, id, false);
  }

  /** Updates of two different identifiers commute: checks of different
      accounts that overlap in time do not disturb each other's flags,
      whatever the order in which their updates land. */
  lemma FlagUpdatesCommute(flags: Flags, a: string, x: bool, b: string, y: bool)
    requires a != b
    ensures WithFlag(WithFlag(flags, a, x), b, y) == WithFlag(WithFlag(flags, b, y), a, x)
  {
    var l := WithFlag(WithFlag(flags, a, x), b, y);
    var r := WithFlag(WithFlag(flags, b, y), a, x);
    assert l.Keys == r.Keys;
    assert forall k :: k in l ==> l[k] == r[k];
  }

  /** The queue snapshot after one poll: a successful poll replaces it, a
      failed one keeps the previous snapshot. */
  function NextSnapshot(prev: Option<QueueStatus>, poll: PollOutcome): (next: Option<QueueStatus>)
    ensures poll.PollOk? ==> next == Some(poll.status)
    ensures !poll.PollOk? ==> next == prev
  {
    match poll
    case PollOk(status) => Some(status)
    case _ => prev
  }

  /** The queue snapshot after a run of polls, in order. */
  function AfterPolls(prev: Option<QueueStatus>, polls: seq<PollOutcome>): Option<QueueStatus> {
    if polls == [] then prev else NextSnapshot(AfterPolls(prev, polls[..|polls| - 1]), polls[|polls| - 1])
  }

  /** The status of the last successful poll of a run, if any. */
  function LastSuccessful(polls: seq<PollOutcome>): Option<QueueStatus> {
    if polls == [] then None
    else if polls[|polls| - 1].PollOk? then Some(polls[|polls| - 1].status)
    else LastSuccessful(polls[..|polls| - 1])
  }

  /** There is a last successful poll exactly when some poll succeeded, and
      its status is that of a successful poll with no successful one after
      it. */
  lemma {:induction false} LastSuccessfulSpec(polls: seq<PollOutcome>)
    ensures LastSuccessful(polls).Some? <==> exists k :: 0 <= k < |polls| && polls[k].PollOk?
    ensures LastSuccessful(polls).Some? ==>
              exists k :: 0 <= k < |polls| && polls[k] == PollOk(LastSuccessful(polls).value)
                          && forall j :: k < j < |polls| ==> !polls[j].PollOk?
  {
    if polls != [] {
      var n := |polls| - 1;
      if polls[n].PollOk? {
        assert polls[n] == PollOk(LastSuccessful(polls).value);
      } else {
        var init := polls[..n];
        LastSuccessfulSpec(init);
        assert LastSuccessful(polls) == LastSuccessful(init);
        if LastSuccessful(init).Some? {
          var k :| 0 <= k < n && init[k] == PollOk(LastSuccessful(init).value)
                   && forall j :: k < j < n ==> !init[j].PollOk?;
          assert polls[k] == init[k];
          forall j | k < j < |polls| ensures !polls[j].PollOk? {
            if j < n { assert polls[j] == init[j]; }
          }
        } else {
          forall k | 0 <= k < |polls| ensures !polls[k].PollOk? {
            if k < n { assert polls[k] == init[k]; }
          }
        }
      }
    }
  }

  /** The snapshot shown is the one of the latest successful poll; when no
      poll has succeeded it is still the one held before. */
  lemma {:induction false} LatestSuccessfulPollWins(prev: Option<QueueStatus>, polls: seq<PollOutcome>)
    ensures AfterPolls(prev, polls) == if LastSuccessful(polls).Some? then LastSuccessful(polls) else prev
  {
    if polls != [] {
      LatestSuccessfulPollWins(prev, polls[..|polls| - 1]);
    }
  }

  /** The entry a batch records for one account and the outcome of its call:
      the account's identifier, the verdict of the reply (false for a thrown
      call) and its message; only a test records a response time. */
  function ItemResult(op: Operation, acc: Account, outcome: Outcome): (r: BatchResult)
    ensures r.id == Identifier(acc)
    ensures r.success <==> outcome.Ok? && outcome.success
    ensures r.message == outcome.message
    ensures r.time == (if op == Test && outcome.Ok? then outcome.time else None)
  {
    match outcome
    case Ok(success, message, time) =>
      BatchResult(Identifier(acc), success, message, if op == Test then time else None)
    case Throw(message) => BatchResult(Identifier(acc), false, message, None)
  }

  /** The entries after the first `n` accounts of a batch whose calls had
      `outcomes`, built as the loop pushes them. */
  function BatchResults(op: Operation, accounts: seq<Account>, outcomes: seq<Outcome>, n: nat): (r: seq<BatchResult>)
    requires |outcomes| == |accounts| && n <= |accounts|
    ensures |r| == n
  {
    if n == 0 then []
    else BatchResults(op, accounts, outcomes, n - 1) + [ItemResult(op, accounts[n - 1], outcomes[n - 1])]
  }

  /** Every account gets exactly one entry, at its own position in the list:
      the entry of its call's outcome. */
  lemma {:induction false} BatchResultsInOrder(op: Operation, accounts: seq<Account>, outcomes: seq<Outcome>, n: nat)
    requires |outcomes| == |accounts| && n <= |accounts|
    ensures forall i :: 0 <= i < n ==>
              BatchResults(op, accounts, outcomes, n)[i] == ItemResult(op, accounts[i], outcomes[i])
  {
    if n > 0 {
      BatchResultsInOrder(op, accounts, outcomes, n - 1);
    }
  }

  /** Entries are only ever pushed: the entries after `m` accounts are the
      first entries after any later account. */
  lemma {:induction false} BatchResultsPrefix(op: Operation, accounts: seq<Account>, outcomes: seq<Outcome>, m: nat, n: nat)
    requires |outcomes| == |accounts| && m <= n <= |accounts|
    ensures BatchResults(op, accounts, outcomes, m) == BatchResults(op, accounts, outcomes, n)[..m]
  {
    if m < n {
      BatchResultsPrefix(op, accounts, outcomes, m, n - 1);
      var r := BatchResults(op, accounts, outcomes, n);
      assert r[..n - 1] == BatchResults(op, accounts, outcomes, n - 1);
      assert r[..n - 1][..m] == r[..m];
    }
  }

  /** The number of successful entries. */
  function SuccessCount(results: seq<BatchResult>): (c: nat)
    ensures c <= |results|
  {
    if results == [] then 0
    else SuccessCount(results[..|results| - 1]) + if results[|results| - 1].success then 1 else 0
  }

  /** Pushing one more entry adds one to the count exactly when the entry
      is successful. */
  lemma SuccessCountSnoc(results: seq<BatchResult>, entry: BatchResult)
    ensures SuccessCount(results + [entry]) == SuccessCount(results) + if entry.success then 1 else 0
  {
    assert (results + [entry])[..|results|] == results;
  }

  /** The count is zero exactly when no entry succeeded, and the number of
      entries exactly when all did. */
  lemma {:induction false} SuccessCountExtremes(results: seq<BatchResult>)
    ensures SuccessCount(results) == 0 <==> forall i :: 0 <= i < |results| ==> !results[i].success
    ensures SuccessCount(results) == |results| <==> forall i :: 0 <= i < |results| ==> results[i].success
  {
    if results != [] {
      var init := results[..|results| - 1];
      SuccessCountExtremes(init);
      assert forall i :: 0 <= i < |init| ==> init[i] == results[i];
    }
  }

  /** The number of calls whose reply had a true verdict, counted from the
      front. */
  function Successful(outcomes: seq<Outcome>): nat {
    if outcomes == [] then 0
    else (if outcomes[0].Ok? && outcomes[0].success then 1 else 0) + Successful(outcomes[1..])
  }

  lemma {:induction false} SuccessfulSnoc(outcomes: seq<Outcome>, o: Outcome)
    ensures Successful(outcomes + [o]) == Successful(outcomes) + if o.Ok? && o.success then 1 else 0
  {
    if outcomes != [] {
      assert (outcomes + [o])[1..] == outcomes[1..] + [o];
      SuccessfulSnoc(outcomes[1..], o);
    } else {
      assert [o][1..] == [];
    }
  }

  /** The counter a batch keeps is the number of accounts so far whose call
      returned a true verdict; thrown calls and false verdicts do not count. */
  lemma CountMatchesOutcomes(op: Operation, accounts: seq<Account>, outcomes: seq<Outcome>, n: nat)
    requires |outcomes| == |accounts| && n <= |accounts|
    ensures SuccessCount(BatchResults(op, accounts, outcomes, n)) == Successful(outcomes[..n])
  {
    var results := BatchResults(op, accounts, outcomes, n);
    BatchResultsInOrder(op, accounts, outcomes, n);
    forall i | 0 <= i < n
      ensures results[i].success <==> outcomes[..n][i].Ok? && outcomes[..n][i].success
    {
      assert results[i] == ItemResult(op, accounts[i], outcomes[i]);
    }
    CountAgrees(results, outcomes[..n]);
  }

  /** Entries whose verdicts agree, position by position, with the outcomes
      of calls are counted alike. */
  lemma {:induction false} CountAgrees(results: seq<BatchResult>, outcomes: seq<Outcome>)
    requires |results| == |outcomes|
    requires forall i :: 0 <= i < |results| ==> (results[i].success <==> outcomes[i].Ok? && outcomes[i].success)
    ensures SuccessCount(results) == Successful(outcomes)
  {
    if results != [] {
      var k := |results| - 1;
      CountAgrees(results[..k], outcomes[..k]);
      assert outcomes[..k] + [outcomes[k]] == outcomes;
      SuccessfulSnoc(outcomes[..k], outcomes[k]);
    }
  }

  /** The `batchProgress` values a batch publishes up to its `n`th account:
      the reset to nothing done, then one snapshot after each account. */
  function Snapshots(op: Operation, accounts: seq<Account>, outcomes: seq<Outcome>, n: nat): (s: seq<BatchProgress>)
    requires |outcomes| == |accounts| && n <= |accounts|
    ensures |s| == n + 1
  {
    if n == 0 then [BatchProgress(0, |accounts|, [])]
    else Snapshots(op, accounts, outcomes, n - 1) + [BatchProgress(n, |accounts|, BatchResults(op, accounts, outcomes, n))]
  }

  /** In every published snapshot, the number of entries equals `current`,
      which never exceeds `total`, the number of accounts; `current` goes up
      by one from each snapshot to the next; and each snapshot's entries
      extend the previous snapshot's by one, so entries are never reordered
      or dropped. */
  lemma {:induction false} SnapshotsAreProgress(op: Operation, accounts: seq<Account>, outcomes: seq<Outcome>, n: nat)
    requires |outcomes| == |accounts| && n <= |accounts|
    ensures var s := Snapshots(op, accounts, outcomes, n);
            && s[0] == BatchProgress(0, |accounts|, [])
            && (forall k :: 0 <= k <= n ==>
                  && |s[k].results| == s[k].current == k && s[k].current <= s[k].total == |accounts|
                  && s[k].results == BatchResults(op, accounts, outcomes, k))
            && (forall k :: 0 < k <= n ==> s[k].results[..k - 1] == s[k - 1].results)
  {
    var s := Snapshots(op, accounts, outcomes, n);
    SnapshotAt(op, accounts, outcomes, n, 0);
    forall k | 0 <= k <= n
      ensures && |s[k].results| == s[k].current == k && s[k].current <= s[k].total == |accounts|
              && s[k].results == BatchResults(op, accounts, outcomes, k)
    {
      SnapshotAt(op, accounts, outcomes, n, k);
    }
    forall k | 0 < k <= n ensures s[k].results[..k - 1] == s[k - 1].results {
      SnapshotAt(op, accounts, outcomes, n, k);
      SnapshotAt(op, accounts, outcomes, n, k - 1);
      BatchResultsPrefix(op, accounts, outcomes, k - 1, k);
    }
  }

  /** The snapshot published after the `k`th account. */
  lemma {:induction false} SnapshotAt(op: Operation, accounts: seq<Account>, outcomes: seq<Outcome>, n: nat, k: nat)
    requires |outcomes| == |accounts| && k <= n <= |accounts|
    ensures Snapshots(op, accounts, outcomes, n)[k] == BatchProgress(k, |accounts|, BatchResults(op, accounts, outcomes, k))
  {
    if k < n {
      SnapshotAt(op, accounts, outcomes, n - 1, k);
      assert Snapshots(op, accounts, outcomes, n)[k] == Snapshots(op, accounts, outcomes, n - 1)[k];
    }
  }

  /** What the batch state gains from one more account: its entry is
      pushed, the count goes up for a successful entry, one snapshot is
      published and one check is sent. */
  lemma NextAccount(op: Operation, accounts: seq<Account>, outcomes: seq<Outcome>, i: nat,
                    published0: seq<BatchProgress>, requests0: seq<Request>)
    requires |outcomes| == |accounts| && i < |accounts|
    ensures var item := ItemResult(op, accounts[i], outcomes[i]);
            && BatchResults(op, accounts, outcomes, i + 1) == BatchResults(op, accounts, outcomes, i) + [item]
            && SuccessCount(BatchResults(op, accounts, outcomes, i + 1))
               == SuccessCount(BatchResults(op, accounts, outcomes, i)) + (if item.success then 1 else 0)
            && published0 + Snapshots(op, accounts, outcomes, i + 1)
               == (published0 + Snapshots(op, accounts, outcomes, i))
                  + [BatchProgress(i + 1, |accounts|, BatchResults(op, accounts, outcomes, i + 1))]
            && requests0 + Calls(op, accounts, i + 1)
               == (requests0 + Calls(op, accounts, i)) + [Check(op, Identifier(accounts[i]))]
  {
    var item := ItemResult(op, accounts[i], outcomes[i]);
    SuccessCountSnoc(BatchResults(op, accounts, outcomes, i), item);
    ConcatAssoc(published0, Snapshots(op, accounts, outcomes, i),
                [BatchProgress(i + 1, |accounts|, BatchResults(op, accounts, outcomes, i + 1))]);
    ConcatAssoc(requests0, Calls(op, accounts, i), [Check(op, Identifier(accounts[i]))]);
  }

  /** The requests of a batch up to its `n`th account, as the loop sends
      them. */
  function Calls(op: Operation, accounts: seq<Account>, n: nat): (r: seq<Request>)
    requires n <= |accounts|
    ensures |r| == n
  {
    if n == 0 then [] else Calls(op, accounts, n - 1) + [Check(op, Identifier(accounts[n - 1]))]
  }

  /** A batch sends one check per account, in list order, under the
      account's identifier. */
  lemma {:induction false} CallsInOrder(op: Operation, accounts: seq<Account>, n: nat)
    requires n <= |accounts|
    ensures forall i :: 0 <= i < n ==> Calls(op, accounts, n)[i] == Check(op, Identifier(accounts[i]))
  {
    if n > 0 {
      CallsInOrder(op, accounts, n - 1);
    }
  }

  /** The closing notice of a batch. */
  function Summary(op: Operation, count: nat, total: nat): string {
    "Completed: " + Decimal(count) + "/" + Decimal(total) + (if op == Validate then " valid" else " available")
  }

  /** The summary reads `count/N`: it opens with `Completed: `, then the
      digits of the count, a slash and the digits of the total, and closes
      with the operation's word. */
  lemma SummaryText(op: Operation, count: nat, total: nat)
    ensures var r, c, d, p := Summary(op, count, total), Decimal(count), Decimal(total), |"Completed: "|;
            var q := p + |c| + 1;
            && |r| >= q + |d| && r[..p] == "Completed: "
            && r[p..p + |c|] == c && r[p + |c|] == '/'
            && r[q..q + |d|] == d
            && r[q + |d|..] == (if op == Validate then " valid" else " available")
  {
  }

  /** The notice for one add request's reply. */
  function SubmitNotice(reply: SubmitReply, successText: string): (n: Notice)
    ensures n.level == Success <==> reply == Accepted
    ensures n.level != Info
    ensures reply == Accepted ==> n.text == successText
    ensures reply.Refused? ==> n.text == (if reply.detail != [] then reply.detail else "Failed to add")
    ensures reply == Unreachable ==> n.text == "Network error"
  {
    match reply
    case Accepted => Notice(Success, successText)
    case Refused(detail) => Notice(Error, if detail != [] then detail else "Failed to add")
    case Unreachable => Notice(Error, "Network error")
  }

  /** The notice for a single check of the account `id`. */
  function CheckNotice(op: Operation, id: string, outcome: Outcome): (n: Notice)
    ensures n.level == Success <==> outcome.Ok? && outcome.success
    ensures n.level != Info
    ensures outcome.Ok? ==> |id| <= |n.text| && n.text[..|id|] == id
    ensures outcome.Ok? && op == Test && outcome.success ==>
              n.text == id + ": " + ("Success (" + OptionalNumber(outcome.time) + "ms)")
    ensures outcome.Ok? && !(op == Test && outcome.success) ==> n.text == id + ": " + outcome.message
    ensures outcome.Throw? ==>
              n.text == (if op == Validate then "Validation failed: " else "Test failed: ") + outcome.message
  {
    match outcome
    case Ok(success, message, time) =>
      var text := if op == Test && success then "Success (" + OptionalNumber(time) + "ms)" else message;
      Notice(if success then Success else Error, id + ": " + text)
    case Throw(message) =>
      Notice(Error, (if op == Validate then "Validation failed: " else "Test failed: ") + message)
  }

  /** A batch of three accounts whose second call throws ends with two
      valid accounts out of three, and records the thrown call as a failure
      under the second account's identifier. */
  lemma ThreeAccountExample(a: Account, b: Account, c: Account)
    requires a.email != [] && b.email == [] && b.mobile != []
    ensures var outcomes := [Ok(true, "ok", None), Throw("timeout"), Ok(true, "ok", None)];
            var results := BatchResults(Validate, [a, b, c], outcomes, 3);
            && results[1] == BatchResult(b.mobile, false, "timeout", None)
            && Summary(Validate, SuccessCount(results), 3) == "Completed: 2/3 valid"
  {
    var outcomes := [Ok(true, "ok", None), Throw("timeout"), Ok(true, "ok", None)];
    BatchResultsInOrder(Validate, [a, b, c], outcomes, 3);
    CountMatchesOutcomes(Validate, [a, b, c], outcomes, 3);
    assert outcomes[..3] == outcomes;
    assert outcomes[1..][1..][1..] == [];
    assert Successful(outcomes) == 2;
  }

  class AccountManager {
    var showAddKey: bool
    var showAddAccount: bool
    var newKey: string
    var newAccount: NewAccount
    var loading: bool
    var validating: Flags
    var validatingAll: bool
    var testing: Flags
    var testingAll: bool
    var batchProgress: BatchProgress
    var queueStatus: Option<QueueStatus>
    /** The `onMessage` calls so far, oldest first. */
    var notices: seq<Notice>
    /** The requests sent so far, oldest first. */
    var requests: seq<Request>
    /** How many times `onRefresh` has been called. */
    var refreshes: nat
    /** Every value `batchProgress` has been set to, oldest first. */
    ghost var published: seq<BatchProgress>

    constructor ()
      ensures !showAddKey && !showAddAccount && newKey == [] && newAccount == BlankAccount
      ensures !loading && validating == map[] && !validatingAll && testing == map[] && !testingAll
      ensures batchProgress == BatchProgress(0, 0, []) && queueStatus == None
      ensures notices == [] && requests == [] && refreshes == 0 && published == []
    {
      showAddKey := false;
      showAddAccount := false;
      newKey := [];
      newAccount := BlankAccount;
      loading := false;
      validating := map[];
      validatingAll := false;
      testing := map[];
      testingAll := false;
      batchProgress := BatchProgress(0, 0, []);
      queueStatus := None;
      notices := [];
      requests := [];
      refreshes := 0;
      published := [];
    }

    /** One poll of the queue status. */
    method FetchQueueStatus(poll: PollOutcome)
      modifies this`queueStatus, this`requests
      ensures requests == old(requests) + [QueueStatusRequest]
      ensures queueStatus == NextSnapshot(old(queueStatus), poll)
    {
      requests := requests + [QueueStatusRequest];
      if poll.PollOk? {
        queueStatus := Some(poll.status);
      }
    }

    /** The common tail of both add requests: the request is sent, its reply
        announced, the lists refreshed on success, and loading ends. */
    twostate predicate Submitted(request: Request, reply: SubmitReply, successText: string)
      reads this
    {
      && !loading
      && requests == old(requests) + [request]
      && notices == old(notices) + [SubmitNotice(reply, successText)]
      && refreshes == old(refreshes) + (if reply == Accepted then 1 else 0)
    }

    /** The add-key form: a whitespace-only key is ignored; otherwise the
        trimmed key is submitted, and on success the form is cleared and
        closed. */
    method AddKey(reply: SubmitReply)
      modifies this`loading, this`newKey, this`showAddKey, this`notices, this`requests, this`refreshes
      ensures KeyToSubmit(old(newKey)).None? ==> unchanged(this)
      ensures KeyToSubmit(old(newKey)).Some? ==>
                && Submitted(AddKeyRequest(KeyToSubmit(old(newKey)).value), reply, "API Key added successfully")
                && newKey == (if reply == Accepted then [] else old(newKey))
                && showAddKey == (if reply == Accepted then false else old(showAddKey))
    {
      var key := KeyToSubmit(newKey);
      if key.None? {
        return;
      }
      loading := true;
      requests := requests + [AddKeyRequest(key.value)];
      if reply == Accepted {
        newKey := [];
        showAddKey := false;
        refreshes := refreshes + 1;
      }
      notices := notices + [SubmitNotice(reply, "API Key added successfully")];
      // finally
      loading := false;
    }

    /** The add-account form: a form without a password, or with neither an
        email nor a mobile number, is refused with an error and nothing is
        sent; otherwise the form is submitted as typed, and on success it is
        cleared and closed. */
    method AddAccount(reply: SubmitReply)
      modifies this`loading, this`newAccount, this`showAddAccount, this`notices, this`requests, this`refreshes
      ensures !CanAddAccount(old(newAccount)) ==>
                && notices == old(notices) + [Notice(Error, "Password and Email/Mobile are required")]
                && requests == old(requests) && refreshes == old(refreshes) && loading == old(loading)
                && newAccount == old(newAccount) && showAddAccount == old(showAddAccount)
      ensures CanAddAccount(old(newAccount)) ==>
                && Submitted(AddAccountRequest(old(newAccount)), reply, "Account added successfully")
                && newAccount == (if reply == Accepted then BlankAccount else old(newAccount))
                && showAddAccount == (if reply == Accepted then false else old(showAddAccount))
    {
      if !CanAddAccount(newAccount) {
        notices := notices + [Notice(Error, "Password and Email/Mobile are required")];
        return;
      }
      loading := true;
      requests := requests + [AddAccountRequest(newAccount)];
      if reply == Accepted {
        newAccount := BlankAccount;
        showAddAccount := false;
        refreshes := refreshes + 1;
      }
      notices := notices + [SubmitNotice(reply, "Account added successfully")];
      // finally
      loading := false;
    }

    /** The start of a single check: the account's flag is raised and the
        request is sent. */
    method BeginCheck(op: Operation, id: string)
      modifies this`validating, this`testing, this`requests
      ensures op == Validate ==> validating == WithFlag(old(validating), id, true) && testing == old(testing)
      ensures op == Test ==> testing == WithFlag(old(testing), id, true) && validating == old(validating)
      ensures InFlight(if op == Validate then validating else testing, id)
      ensures requests == old(requests) + [Check(op, id)]
    {
      if op == Validate {
        validating := validating[id := true];
      } else {
        testing := testing[id := true];
      }
      requests := requests + [Check(op, id)];
    }

    /** The end of a single check: the reply or the error is announced, the
        lists are refreshed after a reply, and the account's flag is
        lowered. */
    method FinishCheck(op: Operation, id: string, outcome: Outcome)
      modifies this`validating, this`testing, this`notices, this`refreshes
      ensures op == Validate ==> validating == WithFlag(old(validating), id, false) && testing == old(testing)
      ensures op == Test ==> testing == WithFlag(old(testing), id, false) && validating == old(validating)
      ensures !InFlight(if op == Validate then validating else testing, id)
      ensures notices == old(notices) + [CheckNotice(op, id, outcome)]
      ensures refreshes == old(refreshes) + (if outcome.Ok? then 1 else 0)
    {
      notices := notices + [CheckNotice(op, id, outcome)];
      if outcome.Ok? {
        refreshes := refreshes + 1;
      }
      if op == Validate {
        validating := validating[id := false];
      } else {
        testing := testing[id := false];
      }
    }

    /** A single validation or test of the account `id`, with nothing
        overlapping it. */
    method CheckAccount(op: Operation, id: string, outcome: Outcome)
      modifies this`validating, this`testing, this`notices, this`refreshes, this`requests
      ensures op == Validate ==> validating == WithFlag(old(validating), id, false) && testing == old(testing)
      ensures op == Test ==> testing == WithFlag(old(testing), id, false) && validating == old(validating)
      ensures requests == old(requests) + [Check(op, id)]
      ensures notices == old(notices) + [CheckNotice(op, id, outcome)]
      ensures refreshes == old(refreshes) + (if outcome.Ok? then 1 else 0)
    {
      BeginCheck(op, id);
      FinishCheck(op, id, outcome);
      SetThenClear(old(validating), id);
      SetThenClear(old(testing), id);
    }

    /** The state a batch leaves behind. Without confirmation, or with no
        accounts, nothing changes. Otherwise one check per account is sent
        in list order, every snapshot of the progress is published, the
        final progress holds one entry per account, the summary reports the
        number of successful entries out of the number of accounts, the
        lists are refreshed and the batch flag is lowered. */
    twostate predicate BatchDone(op: Operation, confirmed: bool, accounts: seq<Account>, outcomes: seq<Outcome>)
      requires |outcomes| == |accounts|
      reads this
    {
      if !confirmed || accounts == [] then
        unchanged(this)
      else
        var results := BatchResults(op, accounts, outcomes, |accounts|);
        && (if op == Validate then !validatingAll && testingAll == old(testingAll)
            else !testingAll && validatingAll == old(validatingAll))
        && validating == old(validating) && testing == old(testing)
        && requests == old(requests) + Calls(op, accounts, |accounts|)
        && batchProgress == BatchProgress(|accounts|, |accounts|, results)
        && published == old(published) + Snapshots(op, accounts, outcomes, |accounts|)
        && notices == old(notices) + [Notice(Success, Summary(op, SuccessCount(results), |accounts|))]
        && refreshes == old(refreshes) + 1
    }

    /** "Validate all" or "Test all": after the user confirms, every account
        is checked in turn and a summary is announced. */
    method RunBatch(op: Operation, confirmed: bool, accounts: seq<Account>, outcomes: seq<Outcome>)
      requires |outcomes| == |accounts|
      modifies this`validatingAll, this`testingAll, this`batchProgress, this`published,
               this`requests, this`notices, this`refreshes
      ensures BatchDone(op, confirmed, accounts, outcomes)
    {
      if !confirmed || |accounts| == 0 {
        return;
      }
      if op == Validate {
        validatingAll := true;
      } else {
        testingAll := true;
      }
      var count := CheckEach(op, accounts, outcomes);
      Conclude(op, count, |accounts|);
    }

    /** The end of a batch: the summary is announced, the lists are
        refreshed and the batch's own flag is lowered. */
    method Conclude(op: Operation, count: nat, total: nat)
      modifies this`validatingAll, this`testingAll, this`notices, this`refreshes
      ensures notices == old(notices) + [Notice(Success, Summary(op, count, total))]
      ensures refreshes == old(refreshes) + 1
      ensures if op == Validate then !validatingAll && testingAll == old(testingAll)
              else !testingAll && validatingAll == old(validatingAll)
    {
      notices := notices + [Notice(Success, Summary(op, count, total))];
      refreshes := refreshes + 1;
      if op == Validate {
        validatingAll := false;
      } else {
        testingAll := false;
      }
    }

    /** The loop of a batch: the progress is reset, then each account is
        checked in list order; a thrown call is recorded as a failure and
        the loop goes on with the next account; the progress is republished
        after every account. Returns the number of successful entries. */
    method CheckEach(op: Operation, accounts: seq<Account>, outcomes: seq<Outcome>) returns (count: nat)
      requires |outcomes| == |accounts|
      modifies this`batchProgress, this`published, this`requests
      ensures batchProgress == BatchProgress(|accounts|, |accounts|, BatchResults(op, accounts, outcomes, |accounts|))
      ensures count == SuccessCount(BatchResults(op, accounts, outcomes, |accounts|))
      ensures published == old(published) + Snapshots(op, accounts, outcomes, |accounts|)
      ensures requests == old(requests) + Calls(op, accounts, |accounts|)
    {
      ghost var published0, requests0 := published, requests;
      var total := |accounts|;
      batchProgress := BatchProgress(0, total, []);
      published := published + [batchProgress];

      count := 0;
      var results: seq<BatchResult> := [];
      assert Snapshots(op, accounts, outcomes, 0) == [batchProgress];
      assert Calls(op, accounts, 0) == [] && BatchResults(op, accounts, outcomes, 0) == [];
      for i := 0 to total
        invariant results == BatchResults(op, accounts, outcomes, i)
        invariant count == SuccessCount(results)
        invariant batchProgress == BatchProgress(i, total, results)
        invariant published == published0 + Snapshots(op, accounts, outcomes, i)
        invariant requests == requests0 + Calls(op, accounts, i)
      {
        results, count := CheckNext(op, accounts, outcomes, i, results, count, published0, requests0);
      }
    }

    /** The `i`th iteration of a batch: the account's check is sent, its
        entry is pushed (a thrown call as a failure), the counter goes up for
        a true verdict, and the progress is republished. */
    method CheckNext(op: Operation, accounts: seq<Account>, outcomes: seq<Outcome>, i: nat,
                     results: seq<BatchResult>, count: nat,
                     ghost published0: seq<BatchProgress>, ghost requests0: seq<Request>)
      returns (results': seq<BatchResult>, count': nat)
      requires |outcomes| == |accounts| && i < |accounts|
      requires results == BatchResults(op, accounts, outcomes, i) && count == SuccessCount(results)
      requires published == published0 + Snapshots(op, accounts, outcomes, i)
      requires requests == requests0 + Calls(op, accounts, i)
      modifies this`batchProgress, this`published, this`requests
      ensures results' == BatchResults(op, accounts, outcomes, i + 1) && count' == SuccessCount(results')
      ensures batchProgress == BatchProgress(i + 1, |accounts|, results')
      ensures published == published0 + Snapshots(op, accounts, outcomes, i + 1)
      ensures requests == requests0 + Calls(op, accounts, i + 1)
    {
      NextAccount(op, accounts, outcomes, i, published0, requests0);
      var id := Identifier(accounts[i]);
      requests := requests + [Check(op, id)];
      count' := count;
      match outcomes[i] {
        case Ok(success, message, time) =>
          results' := results + [BatchResult(id, success, message, if op == Test then time else None)];
          if success {
            count' := count' + 1;
          }
        case Throw(message) =>
          results' := results + [BatchResult(id, false, message, None)];
      }
      batchProgress := BatchProgress(|results'|, |accounts|, results');
      published := published + [batchProgress];
    }
  }
}
