/**
 * The SOL balance card: the `short` rendering of a public key, and the
 * `fetchBalance` refresh that tries the wallet's primary connection and then a
 * fixed list of fallback RPC endpoints, stopping at the first that answers.
 *
 * Each `getBalance` call is an external effect; its result is an input here,
 * one entry per attempt in the order the attempts would be made. The balance
 * is kept in lamports: the division by LAMPORTS_PER_SOL is not modelled.
 */
module SolBalance {
  import opened Wrappers
  import opened JsSemantics

  /** The result of one `getBalance` call: a balance in lamports, or the message of what it threw. */
  datatype Attempt = Success(lamports: nat) | Failure(msg: string)

  /** The end of one refresh: the first balance obtained, or the last error, with the number of calls made. */
  datatype FetchOutcome = Fetched(lamports: nat, attempts: nat) | AllFailed(lastError: string, attempts: nat)

  /** The endpoint of the wallet provider's connection, which is tried first. */
  const PrimaryEndpoint: string := "https://rpc.helius.xyz/?api-key=public"

  const FallbackEndpoints: seq<string> := [
    "https://rpc.helius.xyz/?api-key=public",
    "https://api.mainnet-beta.solana.com",
    "https://solana-api.projectserum.com",
    "https://rpc.ankr.com/solana"
  ]

  /** Every endpoint, in the order one refresh may try them. The first two are the same URL. */
  const Endpoints: seq<string> := [PrimaryEndpoint] + FallbackEndpoints

  lemma EndpointsNotDistinct()
    ensures |Endpoints| == 5
    ensures Endpoints[0] == Endpoints[1]
  {
  }

  // ---------------------------------------------------------------------
  // The key rendering

  /** `short(pk)`: the first four characters, an ellipsis, then the last four. */
  function Short(pk: string): (r: string)
    ensures |r| == 2 * (if |pk| < 4 then |pk| else 4) + 1
    ensures |pk| >= 4 ==> |r| == 9 && r == pk[..4] + "\U{2026}" + pk[|pk| - 4..]
    ensures |pk| <= 4 ==> r == pk + "\U{2026}" + pk
  {
    Slice(pk, 0, 4) + "\U{2026}" + Slice(pk, -4, |pk|)
  }

  // ---------------------------------------------------------------------
  // The fail-over specification

  /**
   * One refresh over the attempt results `rs`, tried in order: the first
   * success ends it; when every attempt fails, the last error is kept.
   */
  function FailOver(rs: seq<Attempt>): (o: FetchOutcome)
    requires rs != []
    ensures 1 <= o.attempts <= |rs|
  {
    match rs[0]
    case Success(l) => Fetched(l, 1)
    case Failure(m) =>
      if |rs| == 1 then AllFailed(m, 1)
      else
        match FailOver(rs[1..])
        case Fetched(l, n) => Fetched(l, n + 1)
        case AllFailed(e, n) => AllFailed(e, n + 1)
  }

  /** When attempt `k` is the first to succeed, the refresh yields its balance after `k + 1` calls. */
  lemma {:induction false} FailOverFirstSuccess(rs: seq<Attempt>, k: nat)
    requires k < |rs| && rs[k].Success?
    requires forall j :: 0 <= j < k ==> rs[j].Failure?
    ensures FailOver(rs) == Fetched(rs[k].lamports, k + 1)
  {
    if k > 0 {
      FailOverFirstSuccess(rs[1..], k - 1);
    }
  }

  /** When every attempt fails, all of them are made and the error is the LAST one's. */
  lemma {:induction false} FailOverAllFail(rs: seq<Attempt>)
    requires rs != []
    requires forall j :: 0 <= j < |rs| ==> rs[j].Failure?
    ensures FailOver(rs) == AllFailed(rs[|rs| - 1].msg, |rs|)
  {
    if |rs| > 1 {
      FailOverAllFail(rs[1..]);
    }
  }

  /** The refresh succeeds exactly when some attempt would succeed. */
  lemma FailOverSucceedsIff(rs: seq<Attempt>)
    requires rs != []
    ensures FailOver(rs).Fetched? <==> exists i :: 0 <= i < |rs| && rs[i].Success?
  {
    if exists i :: 0 <= i < |rs| && rs[i].Success? {
      var k := FirstSuccessIndex(rs);
      FailOverFirstSuccess(rs, k);
    } else {
      FailOverAllFail(rs);
    }
  }

  /** The index of the first successful attempt. */
  function FirstSuccessIndex(rs: seq<Attempt>): (k: nat)
    requires exists i :: 0 <= i < |rs| && rs[i].Success?
    ensures k < |rs| && rs[k].Success?
    ensures forall j :: 0 <= j < k ==> rs[j].Failure?
  {
    if rs[0].Success? then 0
    else
      assert exists i :: 0 <= i < |rs[1..]| && rs[1..][i].Success? by {
        var i :| 0 <= i < |rs| && rs[i].Success?;
        assert rs[1..][i - 1] == rs[i];
      }
      1 + FirstSuccessIndex(rs[1..])
  }

  /** Attempts after the one that ended the refresh are never consulted. */
  lemma {:induction false} FailOverIgnoresUntried(rs: seq<Attempt>, rs': seq<Attempt>)
    requires rs != [] && |rs'| == |rs|
    requires rs'[..FailOver(rs).attempts] == rs[..FailOver(rs).attempts]
    ensures FailOver(rs') == FailOver(rs)
  {
    assert rs'[0] == rs[0];
    if rs[0].Failure? && |rs| > 1 {
      var n := FailOver(rs[1..]).attempts;
      assert rs'[1..][..n] == rs'[1..n + 1] == rs[1..n + 1] == rs[1..][..n];
      FailOverIgnoresUntried(rs[1..], rs'[1..]);
    }
  }

  // ---------------------------------------------------------------------
  // The component

  /** The component state `loading`, `sol` (here in lamports) and `err` at one moment. */
  datatype Snapshot = Snapshot(loading: bool, sol: Option<nat>, err: Option<string>)

  class SolBalanceCard {
    var loading: bool
    var sol: Option<nat>
    var err: Option<string>
    /** The state at each `await` of a refresh, oldest first: what a render in between would show. */
    ghost var observed: seq<Snapshot>

    constructor ()
      ensures !loading && sol == None && err == None && observed == []
    {
      loading, sol, err := false, None, None;
      observed := [];
    }

    function State(): Snapshot
      reads this
    {
      Snapshot(loading, sol, err)
    }

    /**
     * One refresh. `responses[k]` is what the `k`-th call would give (the primary
     * connection first, then the fallbacks in order); `tried` lists the
     * endpoints actually called.
     */
    method FetchBalance(connected: bool, hasPublicKey: bool, responses: seq<Attempt>)
      returns (tried: seq<string>)
      requires |responses| == |Endpoints|
      modifies this
      ensures !(connected && hasPublicKey) ==>
        tried == [] && State() == old(State()) && observed == old(observed)
      ensures connected && hasPublicKey ==>
        var o := FailOver(responses);
        && tried == Endpoints[..o.attempts]
        && !loading
        && (o.Fetched? ==> sol == Some(o.lamports) && err == None)
        && (o.AllFailed? ==> sol == None && err == Some(o.lastError))
        && observed == old(observed) + seq(o.attempts, _ => Snapshot(true, old(sol), None))
    {
      if !connected || !hasPublicKey {
        return [];
      }
      loading := true;
      err := None;
      ghost var during := State();
      var lamports: Option<nat> := None;
      var lastError: Option<string> := None;

      // The primary connection.
      observed := observed + [State()];
      tried := [PrimaryEndpoint];
      var n := 1;
      match responses[0] {
        case Success(l) =>
          lamports := Some(l);
        case Failure(m) =>
          lastError := Some(m);
          var i := 0;
          while i < |FallbackEndpoints|
            invariant 0 <= i <= |FallbackEndpoints|
            invariant lamports == None && n == i + 1
            invariant forall j :: 0 <= j < n ==> responses[j].Failure?
            invariant lastError == Some(responses[n - 1].msg)
            invariant tried == Endpoints[..n]
            invariant State() == during
            invariant observed == old(observed) + seq(n, _ => during)
          {
            observed := observed + [State()];
            tried := tried + [FallbackEndpoints[i]];
            n := n + 1;
            match responses[i + 1] {
              case Success(l) =>
                lamports := Some(l);
                break;
              case Failure(m) =>
                lastError := Some(m);
            }
            i := i + 1;
          }
      }

      if lamports.Some? {
        FailOverFirstSuccess(responses, n - 1);
        sol := lamports;
      } else {
        FailOverAllFail(responses);
        err := Some(if lastError.Some? then lastError.value else "All RPC endpoints failed");
        sol := None;
      }
      loading := false;
    }
  }
}
