/**
 The status machines of the API objects: one generic check, five transition tables, and what
 follows for every history of accepted statuses when the states of a table can be ranked.
 */
module StatusMachine {
  import opened Common

  datatype Status<S, R> = Status(state: S, reason: R, message: Option<string>, lastTransitionTime: int)

  datatype Machine<!S, !R> = Machine(transitions: map<S, seq<S>>, reasons: map<S, seq<R>>)

  function Lookup<K, V>(m: map<K, seq<V>>, k: K): seq<V> {
    if k in m then m[k] else []
  }

  /** Times are not compared. */
  predicate Equals<S(==), R(==)>(a: Status<S, R>, b: Status<S, R>) {
    a.state == b.state && a.reason == b.reason && a.message == b.message
  }

  predicate IsValidStatusTransition<S(==), R>(m: Machine<S, R>, a: Status<S, R>, b: Status<S, R>) {
    b.state in Lookup(m.transitions, a.state)
  }

  predicate IsValidReason<S, R(==)>(m: Machine<S, R>, a: Status<S, R>) {
    a.reason in Lookup(m.reasons, a.state)
  }

  predicate IsValidTransition<S(==), R(==)>(m: Machine<S, R>, a: Status<S, R>, b: Status<S, R>) {
    Equals(a, b) || (IsValidReason(m, b) && IsValidStatusTransition(m, a, b))
  }

  // ---------- Histories ----------

  /** Consecutive stored statuses: each was accepted over the one before. */
  ghost predicate Accepted<S, R>(m: Machine<S, R>, hist: seq<Status<S, R>>) {
    forall i :: 0 <= i < |hist| - 1 ==> IsValidTransition(m, hist[i], hist[i + 1])
  }

  ghost function Changes<S, R>(hist: seq<Status<S, R>>): nat {
    if |hist| <= 1 then 0
    else
      var n := |hist| - 1;
      Changes(hist[..n]) + (if Equals(hist[n - 1], hist[n]) then 0 else 1)
  }

  /** Every transition of the table goes up in rank. */
  ghost predicate Ranked<S(!new), R>(m: Machine<S, R>, rank: S -> nat) {
    forall s, t :: t in Lookup(m.transitions, s) ==> rank(s) < rank(t)
  }

  /** A status changes at most as often as its rank rises. */
  lemma {:induction false} ChangesBounded<S(!new), R>(m: Machine<S, R>, rank: S -> nat, hist: seq<Status<S, R>>)
    requires Ranked(m, rank) && hist != [] && Accepted(m, hist)
    ensures rank(hist[0].state) + Changes(hist) <= rank(hist[|hist| - 1].state)
  {
    var n := |hist| - 1;
    if n == 0 {
    } else {
      ChangesBounded(m, rank, hist[..n]);
      assert IsValidTransition(m, hist[n - 1], hist[n]);
    }
  }

  /** Later on, a status is still the same or ranks higher. */
  lemma {:induction false} NeverRollsBack<S(!new), R>(m: Machine<S, R>, rank: S -> nat, hist: seq<Status<S, R>>, i: nat,
      j: nat)
    requires Ranked(m, rank) && Accepted(m, hist) && i <= j < |hist|
    ensures Equals(hist[i], hist[j]) || rank(hist[i].state) < rank(hist[j].state)
  {
    if i == j {
    } else {
      NeverRollsBack(m, rank, hist, i, j - 1);
      assert IsValidTransition(m, hist[j - 1], hist[j]);
    }
  }

  /**
   A status read at i and sent back at j passes the check exactly when it is still the stored
   one: stale writes are refused, because the graph has no cycles.
   */
  lemma StaleWriteRefused<S(!new), R>(m: Machine<S, R>, rank: S -> nat, hist: seq<Status<S, R>>, i: nat, j: nat)
    requires Ranked(m, rank) && Accepted(m, hist) && i <= j < |hist|
    ensures IsValidTransition(m, hist[j], hist[i]) <==> Equals(hist[i], hist[j])
  {
    NeverRollsBack(m, rank, hist, i, j);
  }

  /** A status that differs from the first has a reason that is valid for its state. */
  lemma {:induction false} ReasonsValid<S, R>(m: Machine<S, R>, hist: seq<Status<S, R>>, j: nat)
    requires Accepted(m, hist) && j < |hist|
    ensures Equals(hist[0], hist[j]) || IsValidReason(m, hist[j])
  {
    if j == 0 {
    } else {
      ReasonsValid(m, hist, j - 1);
      assert IsValidTransition(m, hist[j - 1], hist[j]);
    }
  }

  /** A state other than the first was entered from one that the table allows before it. */
  lemma {:induction false} EnteredFrom<S, R>(m: Machine<S, R>, hist: seq<Status<S, R>>, j: nat) returns (i: nat)
    requires Accepted(m, hist) && j < |hist| && hist[j].state != hist[0].state
    ensures i < j && hist[j].state in Lookup(m.transitions, hist[i].state)
  {
    assert IsValidTransition(m, hist[j - 1], hist[j]);
    if hist[j - 1].state == hist[j].state && hist[j].state !in Lookup(m.transitions, hist[j - 1].state) {
      i := EnteredFrom(m, hist, j - 1);
    } else {
      i := j - 1;
    }
  }

  /** A state without outgoing transitions is final, message and reason included. */
  lemma {:induction false} FinalStays<S, R>(m: Machine<S, R>, hist: seq<Status<S, R>>, i: nat, j: nat)
    requires Accepted(m, hist) && i <= j < |hist| && Lookup(m.transitions, hist[i].state) == []
    ensures Equals(hist[i], hist[j])
  {
    if i == j {
    } else {
      FinalStays(m, hist, i, j - 1);
      assert IsValidTransition(m, hist[j - 1], hist[j]);
    }
  }
}

module AssetScanStatus {
  import opened StatusMachine

  datatype State = Pending | Scheduled | ReadyToScan | InProgress | Aborted | Failed | Done | OtherState(name: string)

  datatype Reason = Created | Provisioning | UnSupervised | ResourcesReady | ScannerIsRunning
    | Cancellation | Error | AbortTimeout | Success | OtherReason(text: string)

  const MACHINE := Machine(
    map[
      Pending := [Scheduled],
      Scheduled := [ReadyToScan, Failed],
      ReadyToScan := [InProgress, Failed, Aborted],
      InProgress := [Done, Failed, Aborted],
      Aborted := [Failed]
    ],
    map[
      Pending := [Created],
      Scheduled := [Provisioning],
      ReadyToScan := [UnSupervised, ResourcesReady],
      InProgress := [ScannerIsRunning],
      Aborted := [Cancellation],
      Failed := [Error, AbortTimeout],
      Done := [Success]
    ])

  type AssetScanStatus = Status<State, Reason>

  /** When status b is accepted over a, told by what b is. */
  predicate MayFollow(a: AssetScanStatus, b: AssetScanStatus) {
    || (a.state, a.reason, a.message) == (b.state, b.reason, b.message)
    || match b.state
       case Pending => false
       case Scheduled => b.reason == Provisioning && a.state == Pending
       case ReadyToScan => b.reason in {UnSupervised, ResourcesReady} && a.state == Scheduled
       case InProgress => b.reason == ScannerIsRunning && a.state == ReadyToScan
       case Aborted => b.reason == Cancellation && a.state in {ReadyToScan, InProgress}
       case Failed => b.reason in {Error, AbortTimeout} && a.state in {Scheduled, ReadyToScan, InProgress, Aborted}
       case Done => b.reason == Success && a.state == InProgress
       case OtherState(_) => false
  }

  lemma AcceptedIff(a: AssetScanStatus, b: AssetScanStatus)
    ensures IsValidTransition(MACHINE, a, b) <==> MayFollow(a, b)
  {
  }

  function Rank(s: State): nat {
    match s
    case Pending => 0
    case Scheduled => 1
    case ReadyToScan => 2
    case InProgress => 3
    case Aborted => 4
    case Failed => 5
    case Done => 5
    case OtherState(_) => 0
  }

  lemma TableIsRanked()
    ensures Ranked(MACHINE, Rank)
  {
    assert forall s: State :: Lookup(MACHINE.transitions, s) != [] ==>
      s in {Pending, Scheduled, ReadyToScan, InProgress, Aborted};
  }

  /** A scan status changes at most five times. */
  lemma AtMostFiveChanges(hist: seq<AssetScanStatus>)
    requires hist != [] && Accepted(MACHINE, hist)
    ensures Changes(hist) <= 5
  {
    TableIsRanked();
    ChangesBounded(MACHINE, Rank, hist);
  }

  /** Done is reached only through Scheduled, ReadyToScan and InProgress, in that order. */
  lemma DoneThroughAllStages(hist: seq<AssetScanStatus>, j: nat) returns (scheduled: nat, ready: nat, running: nat)
    requires hist != [] && Accepted(MACHINE, hist) && hist[0].state == Pending && j < |hist| && hist[j].state == Done
    ensures scheduled < ready < running < j
    ensures hist[scheduled].state == Scheduled && hist[ready].state == ReadyToScan && hist[running].state == InProgress
  {
    running := EnteredFrom(MACHINE, hist, j);
    ready := EnteredFrom(MACHINE, hist, running);
    scheduled := EnteredFrom(MACHINE, hist, ready);
  }

  /** An aborted scan is never reported as done. */
  lemma {:induction false} AbortedNeverDone(hist: seq<AssetScanStatus>, i: nat, j: nat)
    requires Accepted(MACHINE, hist) && i <= j < |hist| && hist[i].state == Aborted
    ensures hist[j].state in {Aborted, Failed}
  {
    if i == j {
    } else {
      AbortedNeverDone(hist, i, j - 1);
      assert IsValidTransition(MACHINE, hist[j - 1], hist[j]);
    }
  }

  /** Done and Failed are absorbing. */
  lemma DoneAndFailedAreFinal(hist: seq<AssetScanStatus>, i: nat, j: nat)
    requires Accepted(MACHINE, hist) && i <= j < |hist| && hist[i].state in {Done, Failed}
    ensures Equals(hist[i], hist[j])
  {
    FinalStays(MACHINE, hist, i, j);
  }
}

module ResourceCleanupStatus {
  import opened StatusMachine

  datatype State = Pending | Skipped | Failed | Done | OtherState(name: string)

  datatype Reason = AssetScanCreated | DeletePolicy | NotApplicable | ProviderError | InternalError | Success
    | OtherReason(text: string)

  const MACHINE := Machine(
    map[Pending := [Skipped, Failed, Done]],
    map[
      Pending := [AssetScanCreated],
      Skipped := [DeletePolicy, NotApplicable],
      Failed := [ProviderError, InternalError],
      Done := [Success]
    ])

  type ResourceCleanupStatus = Status<State, Reason>

  /** When status b is accepted over a, told by what b is. */
  predicate MayFollow(a: ResourceCleanupStatus, b: ResourceCleanupStatus) {
    || (a.state, a.reason, a.message) == (b.state, b.reason, b.message)
    || match b.state
       case Pending => false
       case Skipped => b.reason in {DeletePolicy, NotApplicable} && a.state == Pending
       case Failed => b.reason in {ProviderError, InternalError} && a.state == Pending
       case Done => b.reason == Success && a.state == Pending
       case OtherState(_) => false
  }

  lemma AcceptedIff(a: ResourceCleanupStatus, b: ResourceCleanupStatus)
    ensures IsValidTransition(MACHINE, a, b) <==> MayFollow(a, b)
  {
  }

  function Rank(s: State): nat {
    if s.Pending? || s.OtherState? then 0 else 1
  }

  lemma TableIsRanked()
    ensures Ranked(MACHINE, Rank)
  {
  }

  lemma AtMostOneChange(hist: seq<ResourceCleanupStatus>)
    requires hist != [] && Accepted(MACHINE, hist)
    ensures Changes(hist) <= 1
  {
    TableIsRanked();
    ChangesBounded(MACHINE, Rank, hist);
  }
}

module ScanStatus {
  import opened StatusMachine

  datatype State = Pending | Discovered | InProgress | Aborted | Failed | Done | OtherState(name: string)

  datatype Reason = Created | AssetsDiscovered | AssetScansRunning | Cancellation | Error | Timeout | NothingToScan
    | Success
    | OtherReason(text: string)

  const MACHINE := Machine(
    map[
      Pending := [Discovered, Aborted, Failed, Done],
      Discovered := [InProgress, Aborted],
      InProgress := [Aborted, Failed, Done],
      Aborted := [Failed]
    ],
    map[
      Pending := [Created],
      Discovered := [AssetsDiscovered],
      InProgress := [AssetScansRunning],
      Aborted := [Cancellation],
      Failed := [Cancellation, Error, Timeout],
      Done := [NothingToScan, Success]
    ])

  /** When status b is accepted over a, told by what b is. */
  predicate MayFollow(a: Status<State, Reason>, b: Status<State, Reason>) {
    || (a.state, a.reason, a.message) == (b.state, b.reason, b.message)
    || match b.state
       case Pending => false
       case Discovered => b.reason == AssetsDiscovered && a.state == Pending
       case InProgress => b.reason == AssetScansRunning && a.state == Discovered
       case Aborted => b.reason == Cancellation && a.state in {Pending, Discovered, InProgress}
       case Failed => b.reason in {Cancellation, Error, Timeout} && a.state in {Pending, InProgress, Aborted}
       case Done => b.reason in {NothingToScan, Success} && a.state in {Pending, InProgress}
       case OtherState(_) => false
  }

  lemma AcceptedIff(a: Status<State, Reason>, b: Status<State, Reason>)
    ensures IsValidTransition(MACHINE, a, b) <==> MayFollow(a, b)
  {
  }

  function Rank(s: State): nat {
    match s
    case Pending => 0
    case Discovered => 1
    case InProgress => 2
    case Aborted => 3
    case Failed => 4
    case Done => 4
    case OtherState(_) => 0
  }

  lemma TableIsRanked()
    ensures Ranked(MACHINE, Rank)
  {
    assert forall s: State :: Lookup(MACHINE.transitions, s) != [] ==> s in {Pending, Discovered, InProgress, Aborted};
  }

  lemma AtMostFourChanges(hist: seq<Status<State, Reason>>)
    requires hist != [] && Accepted(MACHINE, hist)
    ensures Changes(hist) <= 4
  {
    TableIsRanked();
    hide Ranked;
    ChangesBounded(MACHINE, Rank, hist);
  }
}

module ScanEstimationStatus {
  import opened StatusMachine

  datatype State = Pending | Discovered | InProgress | Aborted | Failed | Done | OtherState(name: string)

  datatype Reason = Created | SuccessfulDiscovery | Running | Cancellation | AbortedReason | Error | Timeout
    | NothingToEstimate | Success
    | OtherReason(text: string)

  const MACHINE := Machine(
    map[
      Pending := [Discovered, Aborted, Failed, Done],
      Discovered := [InProgress, Aborted, Failed],
      InProgress := [Aborted, Failed, Done],
      Aborted := [Failed]
    ],
    map[
      Pending := [Created],
      Discovered := [SuccessfulDiscovery],
      InProgress := [Running],
      Aborted := [Cancellation],
      Failed := [AbortedReason, Error, Timeout],
      Done := [NothingToEstimate, Success]
    ])

  /** When status b is accepted over a, told by what b is. */
  predicate MayFollow(a: Status<State, Reason>, b: Status<State, Reason>) {
    || (a.state, a.reason, a.message) == (b.state, b.reason, b.message)
    || match b.state
       case Pending => false
       case Discovered => b.reason == SuccessfulDiscovery && a.state == Pending
       case InProgress => b.reason == Running && a.state == Discovered
       case Aborted => b.reason == Cancellation && a.state in {Pending, Discovered, InProgress}
       case Failed =>
         b.reason in {AbortedReason, Error, Timeout} && a.state in {Pending, Discovered, InProgress, Aborted}
       case Done => b.reason in {NothingToEstimate, Success} && a.state in {Pending, InProgress}
       case OtherState(_) => false
  }

  lemma AcceptedIff(a: Status<State, Reason>, b: Status<State, Reason>)
    ensures IsValidTransition(MACHINE, a, b) <==> MayFollow(a, b)
  {
  }

  function Rank(s: State): nat {
    match s
    case Pending => 0
    case Discovered => 1
    case InProgress => 2
    case Aborted => 3
    case Failed => 4
    case Done => 4
    case OtherState(_) => 0
  }

  lemma TableIsRanked()
    ensures Ranked(MACHINE, Rank)
  {
    assert forall s: State :: Lookup(MACHINE.transitions, s) != [] ==> s in {Pending, Discovered, InProgress, Aborted};
  }

  lemma AtMostFourChanges(hist: seq<Status<State, Reason>>)
    requires hist != [] && Accepted(MACHINE, hist)
    ensures Changes(hist) <= 4
  {
    TableIsRanked();
    hide Ranked;
    ChangesBounded(MACHINE, Rank, hist);
  }
}

module AssetScanEstimationStatus {
  import opened StatusMachine

  datatype State = Pending | Aborted | Failed | Done | OtherState(name: string)

  datatype Reason = Created | Cancellation | AbortedReason | Error | Success | OtherReason(text: string)

  const MACHINE := Machine(
    map[
      Pending := [Aborted, Done, Failed],
      Failed := [Aborted]
    ],
    map[
      Pending := [Created],
      Aborted := [Cancellation],
      Failed := [AbortedReason, Error],
      Done := [Success]
    ])

  /** When status b is accepted over a, told by what b is. */
  predicate MayFollow(a: Status<State, Reason>, b: Status<State, Reason>) {
    || (a.state, a.reason, a.message) == (b.state, b.reason, b.message)
    || match b.state
       case Pending => false
       case Aborted => b.reason == Cancellation && a.state in {Pending, Failed}
       case Failed => b.reason in {AbortedReason, Error} && a.state == Pending
       case Done => b.reason == Success && a.state == Pending
       case OtherState(_) => false
  }

  lemma AcceptedIff(a: Status<State, Reason>, b: Status<State, Reason>)
    ensures IsValidTransition(MACHINE, a, b) <==> MayFollow(a, b)
  {
  }

  function Rank(s: State): nat {
    match s
    case Pending => 0
    case Failed => 1
    case Aborted => 2
    case Done => 2
    case OtherState(_) => 0
  }

  lemma TableIsRanked()
    ensures Ranked(MACHINE, Rank)
  {
    assert forall s: State :: Lookup(MACHINE.transitions, s) != [] ==> s in {Pending, Failed};
  }

  /** In this machine it is Aborted that is final: a failed estimation may still be aborted. */
  lemma AtMostTwoChanges(hist: seq<Status<State, Reason>>)
    requires hist != [] && Accepted(MACHINE, hist)
    ensures Changes(hist) <= 2
  {
    TableIsRanked();
    hide Ranked;
    ChangesBounded(MACHINE, Rank, hist);
  }
}
