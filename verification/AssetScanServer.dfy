/**
 The asset scan endpoints as functions on the table of stored asset scans. The database applies
 a PATCH as a JSON merge patch: absent fields keep their stored value, also inside `status`.
 */
module AssetScanApi {
  import opened Common
  import opened StatusMachine
  import Scan = AssetScanStatus
  import Cleanup = ResourceCleanupStatus

  type Id = string

  datatype Annotation = Annotation(key: string, value: string)

  /** `data` stands for all fields whose content no handler looks at, by JSON path. */
  datatype AssetScan = AssetScan(
    id: Option<Id>,
    status: Option<Scan.AssetScanStatus>,
    cleanup: Option<Cleanup.ResourceCleanupStatus>,
    annotations: Option<seq<Annotation>>,
    data: map<string, string>)

  type Table = map<Id, AssetScan>

  /** How the database call at the end of a handler turns out. */
  datatype DbOutcome = Stored | Refused(code: nat)

  datatype Response = Success | Error(code: nat) | Crash
  {
    predicate Ok() { Success? }
  }

  const BAD_REQUEST: nat := 400
  const NOT_FOUND: nat := 404
  const INTERNAL_ERROR: nat := 500

  datatype Request =
    | Post(scan: AssetScan, newId: Id)
    | Patch(id: Id, scan: AssetScan)
    | Put(id: Id, scan: AssetScan)

  function MergeStatus<S, R>(stored: Option<Status<S, R>>, given: Option<Status<S, R>>): Option<Status<S, R>> {
    if given.None? then stored
    else if given.value.message.None? && stored.Some? then Some(given.value.(message := stored.value.message))
    else given
  }

  function MergePatch(stored: AssetScan, scan: AssetScan): AssetScan {
    AssetScan(
      stored.id,
      MergeStatus(stored.status, scan.status),
      MergeStatus(stored.cleanup, scan.cleanup),
      if scan.annotations.None? then stored.annotations else scan.annotations,
      stored.data + scan.data)
  }

  // ---------- The guards ----------

  predicate PostAccepts(scan: AssetScan) {
    && scan.status.Some? && scan.status.value.state == Scan.Pending
    && scan.cleanup.Some? && scan.cleanup.value.state in {Cleanup.Pending, Cleanup.Skipped}
  }

  predicate BodyIdMatches(scan: AssetScan, id: Id) {
    scan.id.Some? ==> scan.id.value == id
  }

  /** The check of one status in PATCH: absent is fine, present needs a stored one to be compared with. */
  function CheckPatched<S(==), R(==)>(m: Machine<S, R>, stored: Option<Status<S, R>>, given: Option<Status<S,
      R>>): Response {
    if given.None? then Success
    else if stored.None? then Error(INTERNAL_ERROR)
    else if IsValidTransition(m, stored.value, given.value) then Success
    else Error(BAD_REQUEST)
  }

  /** In PUT an absent status runs into the message of a nil error. */
  function CheckPut<S(==), R(==)>(m: Machine<S, R>, stored: Option<Status<S, R>>, given: Option<Status<S,
      R>>): Response {
    if given.None? then Crash else CheckPatched(m, stored, given)
  }

  function CheckUpdate(table: Table, id: Id, scan: AssetScan, put: bool): Response {
    if !BodyIdMatches(scan, id) then Error(BAD_REQUEST)
    else if id !in table then Error(NOT_FOUND)
    else
      var stored := table[id];
      var first := if put then CheckPut(Scan.MACHINE, stored.status, scan.status)
        else CheckPatched(Scan.MACHINE, stored.status, scan.status);
      if !first.Ok() then first
      else if put then CheckPut(Cleanup.MACHINE, stored.cleanup, scan.cleanup)
      else CheckPatched(Cleanup.MACHINE, stored.cleanup, scan.cleanup)
  }

  /** One handled request: the response and the table it leaves behind. */
  function Handle(table: Table, r: Request, db: DbOutcome): (Response, Table) {
    match r
    case Post(scan, newId) =>
      if !PostAccepts(scan) then (Error(BAD_REQUEST), table)
      else if db.Refused? then (Error(db.code), table)
      else if scan.id.Some? || newId in table then (Error(INTERNAL_ERROR), table)
      else (Success, table[newId := scan.(id := Some(newId))])
    case Patch(id, scan) =>
      var check := CheckUpdate(table, id, scan, false);
      if !check.Ok() then (check, table)
      else if db.Refused? then (Error(db.code), table)
      else (Success, table[id := MergePatch(table[id], scan)])
    case Put(id, scan) =>
      var check := CheckUpdate(table, id, scan, true);
      if !check.Ok() then (check, table)
      else if db.Refused? then (Error(db.code), table)
      else (Success, table[id := scan.(id := Some(id))])
  }

  // ---------- Runs of requests ----------

  datatype Call = Call(request: Request, db: DbOutcome)

  function RunCalls(calls: seq<Call>): Table {
    if calls == [] then map[]
    else
      var n := |calls| - 1;
      Handle(RunCalls(calls[..n]), calls[n].request, calls[n].db).1
  }

  /** A refused or failing request changes nothing, an accepted one only the object it names. */
  lemma OnlyAcceptedRequestsChange(table: Table, r: Request, db: DbOutcome)
    ensures var (response, table') := Handle(table, r, db);
            && (!response.Ok() ==> table' == table)
            && (forall id :: id in table && (r.Post? || id != r.id) ==> id in table' && table'[id] == table[id])
  {
  }

  ghost predicate WellFormed(s: AssetScan) {
    s.status.Some? && s.cleanup.Some?
  }

  ghost predicate TableWellFormed(table: Table) {
    forall id :: id in table ==> WellFormed(table[id])
  }

  /** What an update does to the two statuses of the object it hits. */
  lemma UpdateFollowsMachines(table: Table, r: Request, db: DbOutcome, id: Id)
    requires TableWellFormed(table) && id in table
    ensures var table' := Handle(table, r, db).1;
            && id in table' && WellFormed(table'[id])
            && IsValidTransition(Scan.MACHINE, table[id].status.value, table'[id].status.value)
            && IsValidTransition(Cleanup.MACHINE, table[id].cleanup.value, table'[id].cleanup.value)
  {
    hide IsValidReason;
    hide IsValidStatusTransition;
    OnlyAcceptedRequestsChange(table, r, db);
    if !r.Post? && r.id == id {
      MergeKeepsTransition(Scan.MACHINE, table[id].status, r.scan.status);
      MergeKeepsTransition(Cleanup.MACHINE, table[id].cleanup, r.scan.cleanup);
    }
  }

  lemma MergeKeepsTransition<S, R>(m: Machine<S, R>, stored: Option<Status<S, R>>, given: Option<Status<S, R>>)
    requires stored.Some?
    ensures CheckPatched(m, stored, given).Ok() ==>
      MergeStatus(stored, given).Some? && IsValidTransition(m, stored.value, MergeStatus(stored, given).value)
  {
  }

  lemma CreationIsPending(table: Table, r: Request, db: DbOutcome, id: Id)
    requires id !in table && id in Handle(table, r, db).1
    ensures var s := Handle(table, r, db).1[id];
            && WellFormed(s) && s.status.value.state == Scan.Pending
            && s.cleanup.value.state in {Cleanup.Pending, Cleanup.Skipped}
  {
  }

  lemma {:induction false} RunWellFormed(calls: seq<Call>)
    ensures TableWellFormed(RunCalls(calls))
  {
    if calls == [] {
    } else {
      var n := |calls| - 1;
      RunWellFormed(calls[..n]);
      var table, c := RunCalls(calls[..n]), calls[n];
      forall id | id in RunCalls(calls)
        ensures WellFormed(RunCalls(calls)[id])
      {
        if id in table {
          UpdateFollowsMachines(table, c.request, c.db, id);
        } else {
          CreationIsPending(table, c.request, c.db, id);
        }
      }
    }
  }

  lemma {:induction false} StoredUnderItsId(calls: seq<Call>, id: Id)
    requires id in RunCalls(calls)
    ensures RunCalls(calls)[id].id == Some(id)
  {
    hide IsValidTransition;
    hide MergeStatus;
    var n := |calls| - 1;
    if id in RunCalls(calls[..n]) {
      StoredUnderItsId(calls[..n], id);
    }
  }

  /**
   Over any sequence of requests, exactly when a request crashes: a PUT that gets as far as a status
   that is missing. POST and PATCH never do.
   */
  lemma CrashIff(calls: seq<Call>, r: Request, db: DbOutcome)
    ensures TableWellFormed(RunCalls(calls))
    ensures var table := RunCalls(calls);
            Handle(table, r, db).0 == Crash <==>
              && r.Put? && BodyIdMatches(r.scan, r.id) && r.id in table
              && (|| r.scan.status.None?
                  || (&& r.scan.cleanup.None?
                      && IsValidTransition(Scan.MACHINE, table[r.id].status.value, r.scan.status.value)))
  {
    RunWellFormed(calls);
    hide RunCalls;
    hide IsValidTransition;
  }

  /** One object, just created; PUT without a cleanup status crashes with its status and is refused with a wrong one. */
  lemma PutWithoutCleanup(id: Id, now: int)
    ensures var pending := Status(Scan.Pending, Scan.Created, None, now);
            var scan := AssetScan(None, Some(pending),
              Some(Status(Cleanup.Pending, Cleanup.AssetScanCreated, None, now)), None, map[]);
            var table := RunCalls([Call(Post(scan, id), Stored)]);
            && id in table
            && Handle(table, Put(id, scan.(cleanup := None)), Stored).0 == Crash
            && Handle(table, Put(id, scan.(cleanup := None, status := Some(pending.(state := Scan.Done)))),
              Stored).0 == Error(BAD_REQUEST)
            && Handle(table, Put(id + "'", scan.(status := None)), Stored).0 == Error(NOT_FOUND)
  {
    var pending := Status(Scan.Pending, Scan.Created, None, now);
    var scan := AssetScan(None, Some(pending), Some(Status(Cleanup.Pending, Cleanup.AssetScanCreated, None, now)),
      None, map[]);
    var calls := [Call(Post(scan, id), Stored)];
    assert calls[..0] == [];
    assert RunCalls(calls) == Handle(RunCalls([]), Post(scan, id), Stored).1;
    assert RunCalls(calls) == map[id := scan.(id := Some(id))];
    assert |id + "'"| != |id|;
    hide RunCalls;
  }

  /** The stored statuses of one object, from its creation on: one entry per call since then. */
  function StatusHistory(calls: seq<Call>, id: Id): seq<Scan.AssetScanStatus> {
    if calls == [] then []
    else
      var before := StatusHistory(calls[..|calls| - 1], id);
      var table := RunCalls(calls);
      if id in table && table[id].status.Some? then before + [table[id].status.value] else before
  }

  function CleanupHistory(calls: seq<Call>, id: Id): seq<Cleanup.ResourceCleanupStatus> {
    if calls == [] then []
    else
      var before := CleanupHistory(calls[..|calls| - 1], id);
      var table := RunCalls(calls);
      if id in table && table[id].cleanup.Some? then before + [table[id].cleanup.value] else before
  }

  /** Histories start as POST allows, follow the machines, and end with what is stored. */
  lemma {:induction false} HistoriesFollowMachines(calls: seq<Call>, id: Id)
    ensures var h, c := StatusHistory(calls, id), CleanupHistory(calls, id);
            && Accepted(Scan.MACHINE, h) && Accepted(Cleanup.MACHINE, c)
            && (h != [] <==> id in RunCalls(calls)) && (c != [] <==> id in RunCalls(calls))
            && (h != [] ==> h[0].state == Scan.Pending && RunCalls(calls)[id].status == Some(h[|h| - 1]))
            && (c != [] ==>
                 c[0].state in {Cleanup.Pending, Cleanup.Skipped} && RunCalls(calls)[id].cleanup == Some(c[|c| - 1]))
  {
    hide IsValidTransition;
    hide Handle;
    if calls == [] {
    } else {
      var n := |calls| - 1;
      HistoriesFollowMachines(calls[..n], id);
      RunWellFormed(calls[..n]);
      RunWellFormed(calls);
      var table, call := RunCalls(calls[..n]), calls[n];
      if id in table {
        UpdateFollowsMachines(table, call.request, call.db, id);
      } else if id in RunCalls(calls) {
        CreationIsPending(table, call.request, call.db, id);
      }
    }
  }

  /**
   The whole protocol, over any sequence of requests: at most five status changes and one cleanup
   change, Done only through all stages, and only the posted status may lack a valid reason.
   */
  lemma ProtocolHolds(calls: seq<Call>, id: Id)
    requires id in RunCalls(calls)
    ensures var h := StatusHistory(calls, id);
            && Changes(h) <= 5 && Changes(CleanupHistory(calls, id)) <= 1
            && (forall j :: 0 <= j < |h| ==> Equals(h[0], h[j]) || IsValidReason(Scan.MACHINE, h[j]))
            && (forall j :: 0 <= j < |h| && h[j].state == Scan.Done ==> PassedAllStages(h, j))
            && (forall i, j :: 0 <= i <= j < |h| && h[i].state == Scan.Aborted ==>
              h[j].state in {Scan.Aborted, Scan.Failed})
            && (forall i, j :: 0 <= i <= j < |h| && h[i].state in {Scan.Done, Scan.Failed} ==> Equals(h[i], h[j]))
  {
    HistoriesFollowMachines(calls, id);
    var h := StatusHistory(calls, id);
    Scan.AtMostFiveChanges(h);
    Cleanup.AtMostOneChange(CleanupHistory(calls, id));
    hide StatusHistory;
    hide CleanupHistory;
    hide RunCalls;
    hide Accepted;
    forall j | 0 <= j < |h|
      ensures Equals(h[0], h[j]) || IsValidReason(Scan.MACHINE, h[j])
    {
      ReasonsValid(Scan.MACHINE, h, j);
    }
    forall j | 0 <= j < |h| && h[j].state == Scan.Done
      ensures PassedAllStages(h, j)
    {
      var scheduled, ready, running := Scan.DoneThroughAllStages(h, j);
      assert StagesAt(h, j, scheduled, ready, running);
    }
    forall i, j | 0 <= i <= j < |h| && h[i].state == Scan.Aborted
      ensures h[j].state in {Scan.Aborted, Scan.Failed}
    {
      Scan.AbortedNeverDone(h, i, j);
    }
    forall i, j | 0 <= i <= j < |h| && h[i].state in {Scan.Done, Scan.Failed}
      ensures Equals(h[i], h[j])
    {
      Scan.DoneAndFailedAreFinal(h, i, j);
    }
  }

  ghost predicate PassedAllStages(h: seq<Scan.AssetScanStatus>, j: int) {
    exists scheduled, ready, running :: StagesAt(h, j, scheduled, ready, running)
  }

  ghost predicate StagesAt(h: seq<Scan.AssetScanStatus>, j: int, scheduled: int, ready: int, running: int) {
    && 0 <= scheduled < ready < running < j < |h|
    && h[scheduled].state == Scan.Scheduled && h[ready].state == Scan.ReadyToScan && h[running].state == Scan.InProgress
  }

  // ---------- What each request answers and stores ----------

  /** POST: the first status is Pending, cleanup is Pending or Skipped; what is stored is the body under its new id. */
  lemma PostOutcome(table: Table, scan: AssetScan, newId: Id, db: DbOutcome)
    ensures var (r, table') := Handle(table, Post(scan, newId), db);
            var fits := && scan.status.Some? && scan.status.value.state == Scan.Pending
                        && scan.cleanup.Some? && scan.cleanup.value.state in {Cleanup.Pending, Cleanup.Skipped};
            && (r.Ok() <==> fits && db.Stored? && scan.id.None? && newId !in table)
            && (!fits ==> r == Error(400))
            && (fits && db.Refused? ==> r == Error(db.code))
            && (fits && db.Stored? && !r.Ok() ==> r == Error(500))
            && table' == (if r.Ok()
                 then table[newId := AssetScan(Some(newId), scan.status, scan.cleanup, scan.annotations, scan.data)]
                 else table)
  {
  }

  /** A status that was patched in: all that was given, with the stored message if none was. */
  predicate PatchedInto<S(==), R(==)>(stored: Status<S, R>, given: Status<S, R>, stored': Status<S, R>) {
    && stored'.state == given.state && stored'.reason == given.reason
    && stored'.lastTransitionTime == given.lastTransitionTime
    && stored'.message == (if given.message.Some? then given.message else stored.message)
  }

  /** PATCH of a stored object, over any run: accepted exactly when what is given may follow what is stored. */
  lemma PatchOutcome(calls: seq<Call>, id: Id, scan: AssetScan, db: DbOutcome)
    requires id in RunCalls(calls)
    ensures WellFormed(RunCalls(calls)[id])
    ensures var table := RunCalls(calls);
            var stored, (r, table') := table[id], Handle(table, Patch(id, scan), db);
            var fits := && (scan.id.None? || scan.id.value == id)
                        && (scan.status.None? || Scan.MayFollow(stored.status.value, scan.status.value))
                        && (scan.cleanup.None? || Cleanup.MayFollow(stored.cleanup.value, scan.cleanup.value));
            && (r.Ok() <==> fits && db.Stored?)
            && (!fits ==> r == Error(400))
            && (fits && db.Refused? ==> r == Error(db.code))
            && (!r.Ok() ==> table' == table)
            && (r.Ok() ==>
                 && table'.Keys == table.Keys && WellFormed(table'[id])
                 && (forall other :: other in table && other != id ==> table'[other] == table[other]))
            && (r.Ok() ==>
                 var stored' := table'[id];
                 && stored'.id == stored.id
                 && (if scan.status.None? then stored'.status == stored.status
                     else PatchedInto(stored.status.value, scan.status.value, stored'.status.value))
                 && (if scan.cleanup.None? then stored'.cleanup == stored.cleanup
                     else PatchedInto(stored.cleanup.value, scan.cleanup.value, stored'.cleanup.value))
                 && stored'.annotations == (if scan.annotations.Some? then scan.annotations else stored.annotations)
                 && (forall path :: path in scan.data ==> path in stored'.data && stored'.data[path] == scan.data[path])
                 && (forall path :: path in stored.data && path !in scan.data ==>
                      path in stored'.data && stored'.data[path] == stored.data[path])
                 && stored'.data.Keys == stored.data.Keys + scan.data.Keys)
  {
    RunWellFormed(calls);
    var stored := RunCalls(calls)[id];
    if scan.status.Some? { Scan.AcceptedIff(stored.status.value, scan.status.value); }
    if scan.cleanup.Some? { Cleanup.AcceptedIff(stored.cleanup.value, scan.cleanup.value); }
    hide RunCalls;
    hide IsValidTransition;
    hide Scan.MayFollow;
    hide Cleanup.MayFollow;
  }

  /** PUT of a stored object with both statuses, over any run: what is accepted replaces what is stored. */
  lemma PutOutcome(calls: seq<Call>, id: Id, scan: AssetScan, db: DbOutcome)
    requires id in RunCalls(calls) && scan.status.Some? && scan.cleanup.Some?
    ensures WellFormed(RunCalls(calls)[id])
    ensures var table := RunCalls(calls);
            var stored, (r, table') := table[id], Handle(table, Put(id, scan), db);
            var fits := && (scan.id.None? || scan.id.value == id)
                        && Scan.MayFollow(stored.status.value, scan.status.value)
                        && Cleanup.MayFollow(stored.cleanup.value, scan.cleanup.value);
            && (r.Ok() <==> fits && db.Stored?)
            && (!fits ==> r == Error(400))
            && (fits && db.Refused? ==> r == Error(db.code))
            && table' == (if r.Ok() then
                 table[id := AssetScan(Some(id), scan.status, scan.cleanup, scan.annotations, scan.data)] else table)
  {
    RunWellFormed(calls);
    var stored := RunCalls(calls)[id];
    Scan.AcceptedIff(stored.status.value, scan.status.value);
    Cleanup.AcceptedIff(stored.cleanup.value, scan.cleanup.value);
    hide RunCalls;
    hide IsValidTransition;
    hide Scan.MayFollow;
    hide Cleanup.MayFollow;
  }

  /** PATCH and PUT of an object that is not stored. */
  lemma MissingOutcome(table: Table, id: Id, scan: AssetScan, db: DbOutcome)
    requires id !in table
    ensures forall r :: r in {Patch(id, scan), Put(id, scan)} ==>
      Handle(table, r, db) == (Error(if scan.id.None? || scan.id.value == id then 404 else 400), table)
  {
  }

  lemma NextCall(calls: seq<Call>, c: Call)
    ensures RunCalls(calls + [c]) == Handle(RunCalls(calls), c.request, c.db).1
  {
    assert (calls + [c])[..|calls|] == calls;
  }

  // ---------- A scan that goes well ----------

  function OnlyStatus(state: Scan.State, reason: Scan.Reason, now: int): AssetScan {
    AssetScan(None, Some(Status(state, reason, None, now)), None, None, map[])
  }

  ghost predicate Answered(calls: seq<Call>, c: Call, id: Id, state: Scan.State, reason: Scan.Reason) {
    var (r, table') := Handle(RunCalls(calls), c.request, c.db);
    && r == Success && table' == RunCalls(calls + [c])
    && id in table' && WellFormed(table'[id])
    && table'[id].status.value.state == state && table'[id].status.value.reason == reason
    && table'[id].status.value.message == None
  }

  /** The next status of an object whose status has no message so far. */
  lemma StatusMovesOn(calls: seq<Call>, id: Id, state: Scan.State, reason: Scan.Reason, now: int)
    requires id in RunCalls(calls) && WellFormed(RunCalls(calls)[id])
    requires var s := RunCalls(calls)[id].status.value;
             s.message == None && Scan.MayFollow(s, Status(state, reason, None, now))
    ensures Answered(calls, Call(Patch(id, OnlyStatus(state, reason, now)), Stored), id, state, reason)
  {
    var c := Call(Patch(id, OnlyStatus(state, reason, now)), Stored);
    NextCall(calls, c);
    PatchOutcome(calls, id, c.request.scan, Stored);
    hide RunCalls;
    hide Handle;
    hide Scan.MayFollow;
  }

  lemma Prefixes(calls: seq<Call>, run: seq<Call>)
    requires |run| == 5
    ensures calls + run[..1] == calls + [run[0]]
    ensures calls + run[..2] == calls + [run[0]] + [run[1]]
    ensures calls + run[..3] == calls + [run[0]] + [run[1]] + [run[2]]
    ensures calls + run[..4] == calls + [run[0]] + [run[1]] + [run[2]] + [run[3]]
  {
  }

  /**
   From the POST to Done, as orchestrator and scanner send it, all requests succeed. With `supervised`
   the orchestrator prepares the scanner; otherwise the scan is ready as it is.
   */
  lemma ScanGoesWell(calls: seq<Call>, id: Id, now: int, supervised: bool) returns (run: seq<Call>)
    requires id !in RunCalls(calls)
    ensures |run| == 5
    ensures var reason := if supervised then Scan.ResourcesReady else Scan.UnSupervised;
            && Answered(calls, run[0], id, Scan.Pending, Scan.Created)
            && Answered(calls + run[..1], run[1], id, Scan.Scheduled, Scan.Provisioning)
            && Answered(calls + run[..2], run[2], id, Scan.ReadyToScan, reason)
            && Answered(calls + run[..3], run[3], id, Scan.InProgress, Scan.ScannerIsRunning)
            && Answered(calls + run[..4], run[4], id, Scan.Done, Scan.Success)
  {
    var reason := if supervised then Scan.ResourcesReady else Scan.UnSupervised;
    var scan := OnlyStatus(Scan.Pending, Scan.Created, now).(
      cleanup := Some(Status(Cleanup.Pending, Cleanup.AssetScanCreated, None, now)));
    var c0 := Call(Post(scan, id), Stored);
    PostOutcome(RunCalls(calls), scan, id, Stored);
    NextCall(calls, c0);
    hide RunCalls;
    hide Handle;
    var calls1 := calls + [c0];
    StatusMovesOn(calls1, id, Scan.Scheduled, Scan.Provisioning, now);
    var c1 := Call(Patch(id, OnlyStatus(Scan.Scheduled, Scan.Provisioning, now)), Stored);
    var calls2 := calls1 + [c1];
    StatusMovesOn(calls2, id, Scan.ReadyToScan, reason, now);
    var c2 := Call(Patch(id, OnlyStatus(Scan.ReadyToScan, reason, now)), Stored);
    var calls3 := calls2 + [c2];
    StatusMovesOn(calls3, id, Scan.InProgress, Scan.ScannerIsRunning, now);
    var c3 := Call(Patch(id, OnlyStatus(Scan.InProgress, Scan.ScannerIsRunning, now)), Stored);
    var calls4 := calls3 + [c3];
    StatusMovesOn(calls4, id, Scan.Done, Scan.Success, now);
    var c4 := Call(Patch(id, OnlyStatus(Scan.Done, Scan.Success, now)), Stored);
    run := [c0, c1, c2, c3, c4];
    Prefixes(calls, run);
    hide *;
  }

  /** A cancelled scan: aborted while ready or running, and then failed by the orchestrator. */
  lemma CancelledScanFails(calls: seq<Call>, id: Id, now: int)
    requires id in RunCalls(calls) && WellFormed(RunCalls(calls)[id])
    requires var s := RunCalls(calls)[id].status.value;
             s.message == None && s.state in {Scan.ReadyToScan, Scan.InProgress}
    ensures var abort := Call(Patch(id, OnlyStatus(Scan.Aborted, Scan.Cancellation, now)), Stored);
            var fail := Call(Patch(id, OnlyStatus(Scan.Failed, Scan.AbortTimeout, now)), Stored);
            && Answered(calls, abort, id, Scan.Aborted, Scan.Cancellation)
            && Answered(calls + [abort], fail, id, Scan.Failed, Scan.AbortTimeout)
  {
    hide RunCalls;
    hide Handle;
    StatusMovesOn(calls, id, Scan.Aborted, Scan.Cancellation, now);
    var abort := Call(Patch(id, OnlyStatus(Scan.Aborted, Scan.Cancellation, now)), Stored);
    StatusMovesOn(calls + [abort], id, Scan.Failed, Scan.AbortTimeout, now);
  }

  lemma {:induction false} HistoryGrows(calls: seq<Call>, n: nat, id: Id)
    requires n <= |calls|
    ensures StatusHistory(calls[..n], id) <= StatusHistory(calls, id)
  {
    hide RunCalls;
    if n < |calls| {
      var m := |calls| - 1;
      HistoryGrows(calls[..m], n, id);
      assert calls[..m][..n] == calls[..n];
    } else {
      assert calls[..n] == calls;
    }
  }

  /**
   A client that read the object after call n and now patches it with the status it read: the
   status check passes exactly when the stored state, reason and message are still those.
   */
  lemma StalePatchRefused(calls: seq<Call>, n: nat, id: Id, patch: AssetScan)
    requires n <= |calls| && id in RunCalls(calls[..n]) && id in RunCalls(calls)
    requires patch.status == RunCalls(calls[..n])[id].status
    ensures var stored := RunCalls(calls)[id].status;
            && patch.status.Some? && stored.Some?
            && (CheckPatched(Scan.MACHINE, stored, patch.status).Ok() <==> Equals(patch.status.value, stored.value))
  {
    HistoriesFollowMachines(calls[..n], id);
    HistoriesFollowMachines(calls, id);
    HistoryGrows(calls, n, id);
    var h, h' := StatusHistory(calls[..n], id), StatusHistory(calls, id);
    Scan.TableIsRanked();
    hide StatusHistory;
    hide CleanupHistory;
    hide RunCalls;
    StaleWriteRefused(Scan.MACHINE, Scan.Rank, h', |h| - 1, |h'| - 1);
  }

  lemma {:induction false} CleanupHistoryGrows(calls: seq<Call>, n: nat, id: Id)
    requires n <= |calls|
    ensures CleanupHistory(calls[..n], id) <= CleanupHistory(calls, id)
  {
    hide RunCalls;
    if n < |calls| {
      var m := |calls| - 1;
      CleanupHistoryGrows(calls[..m], n, id);
      assert calls[..m][..n] == calls[..n];
    } else {
      assert calls[..n] == calls;
    }
  }

  /** The same for the cleanup status. */
  lemma StaleCleanupRefused(calls: seq<Call>, n: nat, id: Id, patch: AssetScan)
    requires n <= |calls| && id in RunCalls(calls[..n]) && id in RunCalls(calls)
    requires patch.cleanup == RunCalls(calls[..n])[id].cleanup
    ensures var stored := RunCalls(calls)[id].cleanup;
            && patch.cleanup.Some? && stored.Some?
            && (CheckPatched(Cleanup.MACHINE, stored, patch.cleanup).Ok() <==>
              Equals(patch.cleanup.value, stored.value))
  {
    HistoriesFollowMachines(calls[..n], id);
    HistoriesFollowMachines(calls, id);
    CleanupHistoryGrows(calls, n, id);
    var h, h' := CleanupHistory(calls[..n], id), CleanupHistory(calls, id);
    Cleanup.TableIsRanked();
    hide StatusHistory;
    hide CleanupHistory;
    hide RunCalls;
    StaleWriteRefused(Cleanup.MACHINE, Cleanup.Rank, h', |h| - 1, |h'| - 1);
  }
}

/** The handlers, updating the table of asset scans. */
module AssetScanServer {
  import opened Common
  import opened StatusMachine
  import opened AssetScanApi
  import Scan = AssetScanStatus
  import Cleanup = ResourceCleanupStatus

  class Server {
    var assetScans: Table

    constructor ()
      ensures assetScans == map[]
    {
      assetScans := map[];
    }

    method PostAssetScans(scan: AssetScan, newId: Id, db: DbOutcome) returns (r: Response)
      modifies this
      ensures (r, assetScans) == Handle(old(assetScans), Post(scan, newId), db)
    {
      if scan.status.None? || scan.status.value.state != Scan.Pending {
        return Error(BAD_REQUEST);
      }
      if scan.cleanup.None? {
        return Error(BAD_REQUEST);
      }
      match scan.cleanup.value.state {
        case Pending =>
        case Skipped =>
        case _ => return Error(BAD_REQUEST);
      }
      if db.Refused? {
        return Error(db.code);
      }
      if scan.id.Some? || newId in assetScans {
        return Error(INTERNAL_ERROR);
      }
      assetScans := assetScans[newId := scan.(id := Some(newId))];
      return Success;
    }

    method PatchAssetScansAssetScanID(id: Id, scan: AssetScan, db: DbOutcome) returns (r: Response)
      modifies this
      ensures (r, assetScans) == Handle(old(assetScans), Patch(id, scan), db)
    {
      hide IsValidTransition;
      if scan.id.Some? && scan.id.value != id {
        return Error(BAD_REQUEST);
      }
      if id !in assetScans {
        return Error(NOT_FOUND);
      }
      var existing := assetScans[id];
      if scan.status.Some? {
        if existing.status.None? {
          return Error(INTERNAL_ERROR);
        }
        if !IsValidTransition(Scan.MACHINE, existing.status.value, scan.status.value) {
          return Error(BAD_REQUEST);
        }
      }
      if scan.cleanup.Some? {
        if existing.cleanup.None? {
          return Error(INTERNAL_ERROR);
        }
        if !IsValidTransition(Cleanup.MACHINE, existing.cleanup.value, scan.cleanup.value) {
          return Error(BAD_REQUEST);
        }
      }
      if db.Refused? {
        return Error(db.code);
      }
      assetScans := assetScans[id := MergePatch(existing, scan)];
      return Success;
    }

    method PutAssetScansAssetScanID(id: Id, scan: AssetScan, db: DbOutcome) returns (r: Response)
      modifies this
      ensures (r, assetScans) == Handle(old(assetScans), Put(id, scan), db)
    {
      hide IsValidTransition;
      if scan.id.Some? && scan.id.value != id {
        return Error(BAD_REQUEST);
      }
      if id !in assetScans {
        return Error(NOT_FOUND);
      }
      var existing := assetScans[id];
      if scan.status.None? {
        return Crash;
      }
      if existing.status.None? {
        return Error(INTERNAL_ERROR);
      }
      if !IsValidTransition(Scan.MACHINE, existing.status.value, scan.status.value) {
        return Error(BAD_REQUEST);
      }
      if scan.cleanup.None? {
        return Crash;
      }
      if existing.cleanup.None? {
        return Error(INTERNAL_ERROR);
      }
      if !IsValidTransition(Cleanup.MACHINE, existing.cleanup.value, scan.cleanup.value) {
        return Error(BAD_REQUEST);
      }
      if db.Refused? {
        return Error(db.code);
      }
      assetScans := assetScans[id := scan.(id := Some(id))];
      return Success;
    }
  }
}

/**
 The scanner's side: every update reads the whole object, changes a few fields of its copy and
 patches the object with the copy. The methods below are the second half, on a copy that may be
 as old as you like.
 */
module ScannerState {
  import opened Common
  import opened StatusMachine
  import opened AssetScanApi
  import AssetScanServer
  import Scan = AssetScanStatus

  const CONFIG_ANNOTATION := "openclarity.io/vmclarity-scanner/config"
  const SCAN_TIME := "stats.general.scanTime"
  const START_TIME := "stats.general.scanTime.startTime"
  const END_TIME := "stats.general.scanTime.endTime"

  datatype Family = Sbom | Vulnerabilities | Secrets | Exploits | Misconfigurations | Rootkits | Malware | InfoFinder

  function StatusField(f: Family): string {
    match f
    case Sbom => "sbom.status"
    case Vulnerabilities => "vulnerabilities.status"
    case Secrets => "secrets.status"
    case Exploits => "exploits.status"
    case Misconfigurations => "misconfigurations.status"
    case Rootkits => "rootkits.status"
    case Malware => "malware.status"
    case InfoFinder => "infoFinder.status"
  }

  /** Every family has its own field. */
  lemma FieldsDiffer(f: Family, g: Family)
    ensures StatusField(f) == StatusField(g) ==> f == g
    ensures StatusField(f) !in {SCAN_TIME, START_TIME, END_TIME}
  {
    assert |SCAN_TIME| == 22 && |START_TIME| == 32 && |END_TIME| == 30;
    assert SCAN_TIME[0] == 's' && START_TIME[0] == 's' && END_TIME[0] == 's';
    FirstAndLength(f);
    FirstAndLength(g);
    hide StatusField;
  }

  lemma FirstAndLength(f: Family)
    ensures StatusField(f) != "" && (StatusField(f)[0], |StatusField(f)|) ==
      match f
      case Sbom => ('s', 11)
      case Vulnerabilities => ('v', 22)
      case Secrets => ('s', 14)
      case Exploits => ('e', 15)
      case Misconfigurations => ('m', 24)
      case Rootkits => ('r', 15)
      case Malware => ('m', 14)
      case InfoFinder => ('i', 17)
  {
  }

  // ---------- Annotations ----------

  predicate IsConfig(a: Annotation) {
    a.key == CONFIG_ANNOTATION
  }

  function WithoutConfig(annotations: seq<Annotation>): seq<Annotation> {
    if annotations == [] then []
    else
      var n := |annotations| - 1;
      WithoutConfig(annotations[..n]) + (if IsConfig(annotations[n]) then [] else [annotations[n]])
  }

  method AppendEffectiveScanConfigAnnotation(annotations: Option<seq<Annotation>>, config: string)
      returns (r: seq<Annotation>)
    ensures r == WithoutConfig(annotations.GetOr([])) + [Annotation(CONFIG_ANNOTATION, config)]
    ensures forall a :: a in r <==>
      (a in annotations.GetOr([]) && !IsConfig(a)) || a == Annotation(CONFIG_ANNOTATION, config)
  {
    forall a { WithoutConfigMembers(annotations.GetOr([]), a); }
    hide *;
    r := [];
    if annotations.Some? {
      var all := annotations.value;
      WithoutConfigEmpty(all);
      for i := 0 to |all|
        invariant r == WithoutConfig(all[..i])
      {
        WithoutConfigStep(all, i);
        if !IsConfig(all[i]) {
          r := r + [all[i]];
        }
      }
      assert all[..|all|] == all;
    }
    WithoutConfigEmpty([]);
    GetOrIs(annotations);
    r := r + [Annotation(CONFIG_ANNOTATION, config)];
  }

  lemma GetOrIs(annotations: Option<seq<Annotation>>)
    ensures annotations.GetOr([]) == if annotations.Some? then annotations.value else []
  {
  }

  lemma WithoutConfigEmpty(all: seq<Annotation>)
    ensures WithoutConfig(all[..0]) == []
    ensures all == [] ==> WithoutConfig(all) == []
  {
  }

  lemma WithoutConfigStep(all: seq<Annotation>, i: nat)
    requires i < |all|
    ensures WithoutConfig(all[..i + 1]) == WithoutConfig(all[..i]) + (if IsConfig(all[i]) then [] else [all[i]])
  {
    assert all[..i + 1][..i] == all[..i];
  }

  lemma {:induction false} WithoutConfigConcat(a: seq<Annotation>, x: Annotation)
    ensures WithoutConfig(a + [x]) == WithoutConfig(a) + (if IsConfig(x) then [] else [x])
  {
    assert (a + [x])[..|a|] == a;
  }

  lemma {:induction false} WithoutConfigIdempotent(a: seq<Annotation>)
    ensures WithoutConfig(WithoutConfig(a)) == WithoutConfig(a)
  {
    hide IsConfig;
    if a == [] {
    } else {
      var n := |a| - 1;
      var w := WithoutConfig(a[..n]);
      WithoutConfigIdempotent(a[..n]);
      WithoutConfigConcat(w, a[n]);
      assert w + [] == w;
      assert WithoutConfig(a) == (if IsConfig(a[n]) then w else w + [a[n]]);
      hide WithoutConfig;
    }
  }

  lemma {:induction false} WithoutConfigMembers(a: seq<Annotation>, x: Annotation)
    ensures x in WithoutConfig(a) <==> x in a && !IsConfig(x)
  {
    hide IsConfig;
    if a == [] {
    } else {
      WithoutConfigMembers(a[..|a| - 1], x);
      assert a == a[..|a| - 1] + [a[|a| - 1]];
    }
  }

  /** Marking twice leaves the other annotations alone and one config annotation, the last one. */
  lemma ReannotatingReplaces(a: seq<Annotation>, first: string, second: string)
    ensures WithoutConfig(WithoutConfig(a) + [Annotation(CONFIG_ANNOTATION, first)])
      + [Annotation(CONFIG_ANNOTATION, second)]
      == WithoutConfig(a) + [Annotation(CONFIG_ANNOTATION, second)]
  {
    WithoutConfigIdempotent(a);
    WithoutConfigConcat(WithoutConfig(a), Annotation(CONFIG_ANNOTATION, first));
  }

  // ---------- Reading, and writing back later ----------

  function StatusNow(state: Scan.State, reason: Scan.Reason, message: Option<string>,
      now: int): Option<Scan.AssetScanStatus> {
    Some(Status(state, reason, message, now))
  }

  /** What the database has to do with the answer: nothing else can refuse a patch that passes the checks. */
  predicate Accepted(table: Table, id: Id, patch: AssetScan) {
    Handle(table, Patch(id, patch), Stored).0.Ok()
  }

  /** The copy is what the server returned after the first n calls. */
  ghost predicate ReadAfter(calls: seq<Call>, n: nat, id: Id, copy: AssetScan) {
    n <= |calls| && id in RunCalls(calls[..n]) && copy == RunCalls(calls[..n])[id]
  }

  lemma {:induction false} StaysStored(calls: seq<Call>, n: nat, id: Id)
    requires n <= |calls| && id in RunCalls(calls[..n])
    ensures id in RunCalls(calls)
  {
    if n == |calls| {
      assert calls[..n] == calls;
    } else {
      var m := |calls| - 1;
      assert calls[..m][..n] == calls[..n];
      StaysStored(calls[..m], n, id);
      OnlyAcceptedRequestsChange(RunCalls(calls[..m]), calls[m].request, calls[m].db);
      hide Handle;
    }
  }

  lemma CopyAndStored(calls: seq<Call>, n: nat, id: Id, copy: AssetScan)
    requires ReadAfter(calls, n, id, copy)
    ensures id in RunCalls(calls) && WellFormed(copy) && WellFormed(RunCalls(calls)[id])
    ensures copy.id == RunCalls(calls)[id].id == Some(id)
  {
    StaysStored(calls, n, id);
    RunWellFormed(calls[..n]);
    RunWellFormed(calls);
    StoredUnderItsId(calls[..n], id);
    StoredUnderItsId(calls, id);
    hide RunCalls;
  }

  /**
   A patch made of a copy read after call n, with a new status, passes exactly when the new status
   may follow the stored one, the cleanup status is still that of the copy, and the database does
   not refuse; then everything the copy has overwrites what is stored.
   */
  lemma PatchWithCopy(calls: seq<Call>, n: nat, id: Id, copy: AssetScan, patch: AssetScan, db: DbOutcome)
    requires ReadAfter(calls, n, id, copy) && patch.id == copy.id && patch.cleanup == copy.cleanup && patch.status.Some?
    ensures id in RunCalls(calls) && WellFormed(copy) && WellFormed(RunCalls(calls)[id])
    ensures RunCalls(calls)[id].id == Some(id)
    ensures var table := RunCalls(calls);
            var stored, (r, table') := table[id], Handle(table, Patch(id, patch), db);
            && !r.Crash?
            && (r.Ok() <==>
                 && db.Stored?
                 && CheckPatched(Scan.MACHINE, stored.status, patch.status).Ok()
                 && Equals(copy.cleanup.value, stored.cleanup.value))
            && (r.Ok() ==> table' == table[id := AssetScan(
                 Some(id), MergeStatus(stored.status, patch.status), copy.cleanup,
                 if patch.annotations.None? then stored.annotations else patch.annotations, stored.data + patch.data)])
            && (!r.Ok() ==> table' == table)
  {
    CopyAndStored(calls, n, id, copy);
    StaleCleanupRefused(calls, n, id, patch);
    hide RunCalls;
    hide IsValidTransition;
  }

  /** The object id, and no other, has become what it is in after. */
  predicate OnlyChanged(before: Table, after: Table, id: Id) {
    after.Keys == before.Keys && forall other :: other in before && other != id ==> after[other] == before[other]
  }

  /** What is stored is the copy with the given status, annotations and data; the rest of the data stays. */
  predicate WrittenBack(stored: AssetScan, stored': AssetScan, copy: AssetScan, status: Scan.AssetScanStatus,
      annotations: Option<seq<Annotation>>, data: map<string, string>)
  {
    && stored'.id == stored.id
    && stored'.status == Some(status)
    && stored'.cleanup == copy.cleanup
    && stored'.annotations == (if annotations.None? then stored.annotations else annotations)
    && stored'.data == stored.data + data
  }

  /** MarkDone gets through exactly when the scan is in progress or already marked so. */
  lemma DoneAcceptedIff(stored: Scan.AssetScanStatus, now: int)
    ensures CheckPatched(Scan.MACHINE, Some(stored), StatusNow(Scan.Done, Scan.Success, None, now)).Ok() <==>
      stored.state == Scan.InProgress
        || (stored.state == Scan.Done && stored.reason == Scan.Success && stored.message == None)
  {
  }

  /** MarkFailed gets through exactly while the scan is scheduled, ready, running or being aborted. */
  lemma FailedAcceptedIff(stored: Scan.AssetScanStatus, message: string, now: int)
    ensures CheckPatched(Scan.MACHINE, Some(stored), StatusNow(Scan.Failed, Scan.Error, Some(message), now)).Ok() <==>
      || stored.state in {Scan.Scheduled, Scan.ReadyToScan, Scan.InProgress, Scan.Aborted}
      || (stored.state == Scan.Failed && stored.reason == Scan.Error && stored.message == Some(message))
  {
  }

  /** MarkInProgress gets through exactly when the scan is ready or already marked so. */
  lemma InProgressAcceptedIff(stored: Scan.AssetScanStatus, now: int)
    ensures CheckPatched(Scan.MACHINE, Some(stored),
      StatusNow(Scan.InProgress, Scan.ScannerIsRunning, None, now)).Ok() <==>
      
      || stored.state == Scan.ReadyToScan
      || (stored.state == Scan.InProgress && stored.reason == Scan.ScannerIsRunning && stored.message == None)
  {
  }

  /** Once the orchestrator has aborted a scan, no copy however old lets the scanner mark it done. */
  lemma AbortBeatsDone(calls: seq<Call>, n: nat, id: Id, patch: AssetScan, now: int)
    requires n <= |calls| && id in RunCalls(calls[..n]) && id in RunCalls(calls)
    requires RunCalls(calls[..n])[id].status.Some? && RunCalls(calls[..n])[id].status.value.state == Scan.Aborted
    requires patch.status == StatusNow(Scan.Done, Scan.Success, None, now)
    ensures !Accepted(RunCalls(calls), id, patch)
  {
    HistoriesFollowMachines(calls[..n], id);
    HistoriesFollowMachines(calls, id);
    HistoryGrows(calls, n, id);
    var h, h' := StatusHistory(calls[..n], id), StatusHistory(calls, id);
    hide StatusHistory;
    hide CleanupHistory;
    hide RunCalls;
    Scan.AbortedNeverDone(h', |h| - 1, |h'| - 1);
    DoneAcceptedIff(h'[|h'| - 1], now);
    hide IsValidTransition;
  }

  ghost predicate NeverAborted(calls: seq<Call>, id: Id) {
    forall i :: 0 <= i < |StatusHistory(calls, id)| ==> StatusHistory(calls, id)[i].state != Scan.Aborted
  }

  /** A scan that is in progress or done has not been aborted before. */
  lemma NotAbortedBefore(calls: seq<Call>, id: Id)
    requires id in RunCalls(calls)
    ensures RunCalls(calls)[id].status.Some?
    ensures RunCalls(calls)[id].status.value.state in {Scan.InProgress, Scan.Done} ==> NeverAborted(calls, id)
  {
    HistoriesFollowMachines(calls, id);
    var h := StatusHistory(calls, id);
    hide StatusHistory;
    hide CleanupHistory;
    hide RunCalls;
    if i :| 0 <= i < |h| && h[i].state == Scan.Aborted {
      Scan.AbortedNeverDone(h, i, |h| - 1);
    }
  }

  /**
   A family update sent with a copy read after call n is accepted exactly when status and cleanup
   status are still what they were then, and an accepted one leaves both as they are, but for the
   transition times, which become those of the copy.
   */
  lemma FamilyUpdateNeedsFreshStatus(calls: seq<Call>, n: nat, id: Id, copy: AssetScan, data: map<string, string>)
    requires ReadAfter(calls, n, id, copy)
    ensures id in RunCalls(calls) && WellFormed(copy) && WellFormed(RunCalls(calls)[id])
    ensures var patch, table := copy.(data := data), RunCalls(calls);
            var stored, (r, table') := table[id], Handle(table, Patch(id, patch), Stored);
            && (r.Ok() <==>
                 Equals(copy.status.value, stored.status.value) && Equals(copy.cleanup.value, stored.cleanup.value))
            && (r.Ok() ==>
                 && table'[id].status == copy.status && Equals(stored.status.value, copy.status.value)
                 && table'[id].cleanup == copy.cleanup && Equals(stored.cleanup.value, copy.cleanup.value))
  {
    var patch := copy.(data := data);
    CopyAndStored(calls, n, id, copy);
    PatchWithCopy(calls, n, id, copy, patch, Stored);
    StalePatchRefused(calls, n, id, patch);
    hide RunCalls;
    hide Handle;
    hide IsValidTransition;
  }

  // ---------- The scanner's updates ----------

  /**
   The second half of each update: the copy was read after the first n calls that the server has
   handled, and the server has handled all of `calls` by the time the patch arrives; `calls'` has
   the patch at its end.
   */
  class VMClarityState {
    const server: AssetScanServer.Server
    const assetScanID: Id

    constructor (server: AssetScanServer.Server, assetScanID: Id)
      ensures this.server == server && this.assetScanID == assetScanID
    {
      this.server, this.assetScanID := server, assetScanID;
    }

    method MarkInProgress(copy: AssetScan, config: string, now: int, time: string, db: DbOutcome,
        ghost calls: seq<Call>, ghost n: nat)
      returns (r: Response, ghost calls': seq<Call>)
      requires server.assetScans == RunCalls(calls) && ReadAfter(calls, n, assetScanID, copy)
      modifies server
      ensures server.assetScans == RunCalls(calls') && calls <= calls'
      ensures OnlyChanged(old(server.assetScans), server.assetScans, assetScanID)
      ensures assetScanID in old(server.assetScans)
      ensures var stored := old(server.assetScans)[assetScanID];
              && WellFormed(stored) && WellFormed(copy)
              && (r.Ok() <==>
                   && db.Stored? && Equals(copy.cleanup.value, stored.cleanup.value)
                   && (|| stored.status.value.state == Scan.ReadyToScan
                       || Equals(stored.status.value, Status(Scan.InProgress, Scan.ScannerIsRunning, None, now))))
              && (!r.Ok() ==> server.assetScans == old(server.assetScans))
              && (r.Ok() ==> WrittenBack(stored, server.assetScans[assetScanID], copy,
                   Status(Scan.InProgress, Scan.ScannerIsRunning, stored.status.value.message, now),
                   Some(WithoutConfig(copy.annotations.GetOr([])) + [Annotation(CONFIG_ANNOTATION, config)]),
                   (copy.data - {END_TIME})[SCAN_TIME := "{}"][START_TIME := time]))
    {
      hide Handle;
      hide RunCalls;
      var assetScan := copy;
      assetScan := assetScan.(data := assetScan.data - {END_TIME});
      assetScan := assetScan.(data := assetScan.data[SCAN_TIME := "{}"]);
      assetScan := assetScan.(data := assetScan.data[START_TIME := time]);
      assetScan := assetScan.(status := StatusNow(Scan.InProgress, Scan.ScannerIsRunning, None, now));
      var annotations := AppendEffectiveScanConfigAnnotation(assetScan.annotations, config);
      assetScan := assetScan.(annotations := Some(annotations));
      PatchWithCopy(calls, n, assetScanID, copy, assetScan, db);
      InProgressAcceptedIff(RunCalls(calls)[assetScanID].status.value, now);
      hide CheckPatched;
      calls' := calls + [Call(Patch(assetScanID, assetScan), db)];
      NextCall(calls, Call(Patch(assetScanID, assetScan), db));
      r := server.PatchAssetScansAssetScanID(assetScanID, assetScan, db);
    }

    /** The end time is written through pointers that only MarkInProgress sets. */
    method MarkDone(copy: AssetScan, now: int, time: string, db: DbOutcome, ghost calls: seq<Call>, ghost n: nat)
      returns (r: Response, ghost calls': seq<Call>)
      requires server.assetScans == RunCalls(calls) && ReadAfter(calls, n, assetScanID, copy)
      modifies server
      ensures server.assetScans == RunCalls(calls') && calls <= calls'
      ensures OnlyChanged(old(server.assetScans), server.assetScans, assetScanID)
      ensures assetScanID in old(server.assetScans)
      ensures var stored := old(server.assetScans)[assetScanID];
              && WellFormed(stored) && WellFormed(copy)
              && (r == Crash <==> SCAN_TIME !in copy.data)
              && (r.Ok() <==>
                   && SCAN_TIME in copy.data && db.Stored? && Equals(copy.cleanup.value, stored.cleanup.value)
                   && (|| stored.status.value.state == Scan.InProgress
                       || Equals(stored.status.value, Status(Scan.Done, Scan.Success, None, now))))
              && (!r.Ok() ==> server.assetScans == old(server.assetScans))
              && (r.Ok() ==> WrittenBack(stored, server.assetScans[assetScanID], copy,
                   Status(Scan.Done, Scan.Success, stored.status.value.message, now), copy.annotations,
                     copy.data[END_TIME := time]))
      ensures r.Ok() ==> NeverAborted(calls, assetScanID)
    {
      hide Handle;
      hide RunCalls;
      hide NeverAborted;
      CopyAndStored(calls, n, assetScanID, copy);
      var assetScan := copy;
      if SCAN_TIME !in assetScan.data {
        return Crash, calls;
      }
      assetScan := assetScan.(data := assetScan.data[END_TIME := time]);
      assetScan := assetScan.(status := StatusNow(Scan.Done, Scan.Success, None, now));
      PatchWithCopy(calls, n, assetScanID, copy, assetScan, db);
      DoneAcceptedIff(RunCalls(calls)[assetScanID].status.value, now);
      NotAbortedBefore(calls, assetScanID);
      hide CheckPatched;
      calls' := calls + [Call(Patch(assetScanID, assetScan), db)];
      NextCall(calls, Call(Patch(assetScanID, assetScan), db));
      r := server.PatchAssetScansAssetScanID(assetScanID, assetScan, db);
    }

    method MarkFailed(copy: AssetScan, message: string, now: int, time: string, db: DbOutcome, ghost calls: seq<Call>,
        ghost n: nat)
      returns (r: Response, ghost calls': seq<Call>)
      requires server.assetScans == RunCalls(calls) && ReadAfter(calls, n, assetScanID, copy)
      modifies server
      ensures server.assetScans == RunCalls(calls') && calls <= calls'
      ensures OnlyChanged(old(server.assetScans), server.assetScans, assetScanID)
      ensures assetScanID in old(server.assetScans)
      ensures var stored := old(server.assetScans)[assetScanID];
              && WellFormed(stored) && WellFormed(copy)
              && (r == Crash <==> SCAN_TIME !in copy.data)
              && (r.Ok() <==>
                   && SCAN_TIME in copy.data && db.Stored? && Equals(copy.cleanup.value, stored.cleanup.value)
                   && (|| stored.status.value.state in {Scan.Scheduled, Scan.ReadyToScan, Scan.InProgress, Scan.Aborted}
                       || Equals(stored.status.value, Status(Scan.Failed, Scan.Error, Some(message), now))))
              && (!r.Ok() ==> server.assetScans == old(server.assetScans))
              && (r.Ok() ==> WrittenBack(stored, server.assetScans[assetScanID], copy,
                   Status(Scan.Failed, Scan.Error, Some(message), now), copy.annotations, copy.data[END_TIME := time]))
    {
      hide Handle;
      hide RunCalls;
      CopyAndStored(calls, n, assetScanID, copy);
      var assetScan := copy;
      if SCAN_TIME !in assetScan.data {
        return Crash, calls;
      }
      assetScan := assetScan.(data := assetScan.data[END_TIME := time]);
      assetScan := assetScan.(status := StatusNow(Scan.Failed, Scan.Error, Some(message), now));
      PatchWithCopy(calls, n, assetScanID, copy, assetScan, db);
      FailedAcceptedIff(RunCalls(calls)[assetScanID].status.value, message, now);
      hide CheckPatched;
      calls' := calls + [Call(Patch(assetScanID, assetScan), db)];
      NextCall(calls, Call(Patch(assetScanID, assetScan), db));
      r := server.PatchAssetScansAssetScanID(assetScanID, assetScan, db);
    }

    method MarkFamilyScanInProgress(copy: AssetScan, f: Family, db: DbOutcome, ghost calls: seq<Call>, ghost n: nat)
      returns (r: Response, ghost calls': seq<Call>)
      requires server.assetScans == RunCalls(calls) && ReadAfter(calls, n, assetScanID, copy)
      modifies server
      ensures server.assetScans == RunCalls(calls') && calls <= calls'
      ensures OnlyChanged(old(server.assetScans), server.assetScans, assetScanID)
      ensures assetScanID in old(server.assetScans)
      ensures var stored := old(server.assetScans)[assetScanID];
              && WellFormed(stored) && WellFormed(copy)
              && (r.Ok() <==>
                   && db.Stored? && Equals(copy.status.value, stored.status.value)
                   && Equals(copy.cleanup.value, stored.cleanup.value))
              && (!r.Ok() ==> server.assetScans == old(server.assetScans))
              && (r.Ok() ==> WrittenBack(stored, server.assetScans[assetScanID], copy,
                   copy.status.value, copy.annotations, copy.data[StatusField(f) := "InProgress/Scanning"]))
    {
      hide Handle;
      hide RunCalls;
      var assetScan := copy;
      assetScan := assetScan.(data := assetScan.data[StatusField(f) := "InProgress/Scanning"]);
      FamilyUpdateNeedsFreshStatus(calls, n, assetScanID, copy, assetScan.data);
      PatchWithCopy(calls, n, assetScanID, copy, assetScan, db);
      PatchWithCopy(calls, n, assetScanID, copy, assetScan, Stored);
      hide CheckPatched;
      calls' := calls + [Call(Patch(assetScanID, assetScan), db)];
      NextCall(calls, Call(Patch(assetScanID, assetScan), db));
      r := server.PatchAssetScansAssetScanID(assetScanID, assetScan, db);
    }
  }
}
