/**
 The Azure provider against a cloud that moves on its own: between any two requests resources may
 finish or fail provisioning, copies may end, deletions complete and SAS grants expire, and any
 request may fail. One resource of each kind belongs to a scan job, under a name derived from it.
 */
module AzureCloud {
  import opened Common

  datatype Resource = Snapshot | Blob | Disk | Nic | Vm

  /** For the blob, Creating is a pending copy, Succeeded a finished and Failed a stopped one. */
  datatype Phase = Absent | Creating | Succeeded | Failed | Updating | Deleting

  /** `dataDisks` tells whether the VM's profile lists a data disk, `diskAttached` whether the disk is attached. */
  datatype Cloud = Cloud(snapshot: Phase, blob: Phase, disk: Phase, nic: Phase, vm: Phase, sasGranted: bool,
    dataDisks: bool, diskAttached: bool)

  datatype Op =
    | CreateSnapshot
    | CreateDiskCopy
    | CreateDiskImport
    | CreateNic
    | CreateVm
    | AttachDisk
    | GrantAccess
    | RevokeAccess
    | StartCopy
    | AbortCopy
    | Delete(r: Resource)

  /** One mutating request: what was asked, the cloud it met, and whether it took effect. */
  datatype Entry = Entry(op: Op, before: Cloud, took: bool)

  function PhaseOf(c: Cloud, r: Resource): Phase {
    match r
    case Snapshot => c.snapshot
    case Blob => c.blob
    case Disk => c.disk
    case Nic => c.nic
    case Vm => c.vm
  }

  function Enter(c: Cloud, r: Resource, p: Phase): Cloud {
    match r
    case Snapshot => c.(snapshot := p)
    case Blob => c.(blob := p)
    case Disk => c.(disk := p)
    case Nic => c.(nic := p)
    case Vm => c.(vm := p)
  }

  function Created(op: Op): Option<Resource> {
    match op
    case CreateSnapshot => Some(Snapshot)
    case CreateDiskCopy => Some(Disk)
    case CreateDiskImport => Some(Disk)
    case CreateNic => Some(Nic)
    case CreateVm => Some(Vm)
    case StartCopy => Some(Blob)
    case _ => None
  }

  function Effect(c: Cloud, op: Op): Cloud {
    match op
    case AttachDisk => c.(vm := Updating, dataDisks := true)
    case GrantAccess => c.(sasGranted := true)
    case RevokeAccess => c.(sasGranted := false)
    case AbortCopy => if c.blob == Creating then c.(blob := Failed) else c
    case Delete(r) => if PhaseOf(c, r) == Absent then c else Enter(c, r, Deleting)
    case _ => Enter(c, Created(op).value, Creating)
  }

  function After(e: Entry): Cloud {
    if e.took then Effect(e.before, e.op) else e.before
  }

  // ---------- What the cloud does on its own ----------

  predicate PhaseDrifts(p: Phase, p': Phase) {
    || p == p'
    || (p in {Creating, Updating} && p' in {Succeeded, Failed})
    || (p == Deleting && p' == Absent)
  }

  predicate Drifts(c: Cloud, c': Cloud) {
    && PhaseDrifts(c.snapshot, c'.snapshot) && PhaseDrifts(c.blob, c'.blob) && PhaseDrifts(c.disk, c'.disk)
    && PhaseDrifts(c.nic, c'.nic) && PhaseDrifts(c.vm, c'.vm)
    && (c'.sasGranted ==> c.sasGranted)
    && AttachmentDrifts(c, c')
  }

  predicate HasVm(c: Cloud) {
    c.vm != Absent && c.vm != Deleting
  }

  /** A disk gets attached when the VM lists it, and stays so, as does the list, as long as there is the VM. */
  predicate AttachmentDrifts(c: Cloud, c': Cloud) {
    && (c'.dataDisks == c.dataDisks || (c.dataDisks && c'.vm == Absent))
    && (c.diskAttached && !c'.diskAttached ==> !HasVm(c'))
    && (!c.diskAttached && c'.diskAttached ==> c.dataDisks && HasVm(c'))
  }

  /** Whatever was in progress has come to an end: nothing is being provisioned or attached any more. */
  predicate Finished(c: Cloud) {
    && {Creating, Updating} !! {c.snapshot, c.blob, c.disk, c.nic, c.vm}
    && (c.dataDisks && HasVm(c) ==> c.diskAttached)
  }

  function FinishPhase(p: Phase): Phase {
    if p in {Creating, Updating} then Succeeded else p
  }

  lemma DriftPhase(c: Cloud, c': Cloud)
    requires Drifts(c, c')
    ensures forall r :: PhaseDrifts(PhaseOf(c, r), PhaseOf(c', r))
  {
  }

  // ---------- Errors ----------

  datatype ApiError = ResponseError(statusCode: int) | ClientFailure

  datatype ProviderError = Fatal | Retryable | Plain

  const NOT_FOUND := 404

  /** Whether the error says that the resource does not exist, and how the reconciler is to take it. */
  function HandleAzureRequestError(err: ApiError): (bool, ProviderError) {
    match err
    case ClientFailure => (false, Fatal)
    case ResponseError(sc) =>
      if 400 <= sc < 500 then (sc == NOT_FOUND, Fatal) else (false, Plain)
  }

  /** Only what the client did wrong, or could not tell, is fatal. */
  function Severity(err: ApiError): ProviderError {
    if err.ResponseError? && err.statusCode / 100 != 4 then Plain else Fatal
  }

  datatype Found = Found(phase: Phase, attached: bool) | GetFailed(err: ApiError)

  // ---------- The cloud as an object ----------

  class World {
    var cloud: Cloud
    ghost var log: seq<Entry>
    ghost var failures: seq<ApiError>

    constructor (cloud: Cloud)
      ensures this.cloud == cloud && log == [] && failures == []
    {
      this.cloud := cloud;
      log, failures := [], [];
    }

    method Drift()
      modifies this`cloud
      ensures Drifts(old(cloud), cloud)
    {
      var later: Cloud := *;
      if Drifts(cloud, later) {
        cloud := later;
      }
    }

    /** Time passes until nothing is in progress any more; what was may have succeeded or failed. */
    method Finish()
      modifies this`cloud
      ensures Drifts(old(cloud), cloud) && Finished(cloud)
    {
      var later: Cloud := *;
      if !(Drifts(cloud, later) && Finished(later)) {
        later := cloud.(snapshot := FinishPhase(cloud.snapshot), blob := FinishPhase(cloud.blob),
          disk := FinishPhase(cloud.disk), nic := FinishPhase(cloud.nic), vm := FinishPhase(cloud.vm),
          diskAttached := cloud.diskAttached || (cloud.dataDisks && HasVm(cloud)));
      }
      cloud := later;
    }

    /** A read can fail for any reason, but says 404 only of an absent resource, which is no failure. */
    method Get(r: Resource) returns (found: Found)
      modifies this`cloud, this`failures
      ensures Drifts(old(cloud), cloud)
      ensures failures ==
        if found.Found? || found.err == ResponseError(NOT_FOUND) then old(failures) else old(failures) + [found.err]
      ensures found.Found? ==>
        PhaseOf(cloud, r) == found.phase && found.phase != Absent && found.attached == cloud.diskAttached
      ensures found == GetFailed(ResponseError(NOT_FOUND)) ==> PhaseOf(cloud, r) == Absent
    {
      Drift();
      var trouble: bool, err: ApiError := *, *;
      if trouble && err != ResponseError(NOT_FOUND) {
        failures := failures + [err];
        return GetFailed(err);
      }
      if PhaseOf(cloud, r) == Absent {
        return GetFailed(ResponseError(NOT_FOUND));
      }
      return Found(PhaseOf(cloud, r), cloud.diskAttached);
    }

    /** A write that reports success took effect; one that reports an error may have. */
    method Do(op: Op) returns (err: Option<ApiError>)
      modifies this
      ensures failures == if err.Some? then old(failures) + [err.value] else old(failures)
      ensures exists e ::
        && log == old(log) + [e] && e.op == op
        && Drifts(old(cloud), e.before) && cloud == After(e) && (err.None? ==> e.took)
    {
      Drift();
      ghost var before := cloud;
      var trouble: bool, lost: bool, e: ApiError := *, *, *;
      if trouble {
        failures := failures + [e];
      }
      if trouble && lost {
        log := log + [Entry(op, before, false)];
        return Some(e);
      }
      cloud := Effect(cloud, op);
      log := log + [Entry(op, before, true)];
      return if trouble then Some(e) else None;
    }
  }
}

/** What is claimed of the requests that setting up and tearing down a scan issue. */
module AzureProtocol {
  import opened Common
  import opened AzureCloud

  // ---------- Setting up ----------

  predicate Ready(c: Cloud, r: Resource) {
    PhaseOf(c, r) == Succeeded
  }

  /** The state a setup request may meet: what it builds on is finished, what it creates is absent. */
  predicate MayIssue(op: Op, c: Cloud) {
    match op
    case CreateSnapshot => c.snapshot == Absent
    case GrantAccess => Ready(c, Snapshot) && c.blob == Absent
    case StartCopy => Ready(c, Snapshot) && c.blob == Absent
    case RevokeAccess => Ready(c, Snapshot) && Ready(c, Blob)
    case CreateDiskCopy => Ready(c, Snapshot) && c.disk == Absent
    case CreateDiskImport => Ready(c, Snapshot) && Ready(c, Blob) && !c.sasGranted && c.disk == Absent
    case CreateNic => Ready(c, Snapshot) && Ready(c, Disk) && c.nic == Absent
    case CreateVm => Ready(c, Snapshot) && Ready(c, Disk) && Ready(c, Nic) && c.vm == Absent
    case AttachDisk => Ready(c, Snapshot) && Ready(c, Disk) && Ready(c, Nic) && Ready(c, Vm)
    case AbortCopy => false
    case Delete(_) => false
  }

  /** How often creating r took effect. */
  ghost function Creations(log: seq<Entry>, r: Resource): nat {
    if log == [] then 0
    else
      var e := log[|log| - 1];
      Creations(log[..|log| - 1], r) + (if e.took && Created(e.op) == Some(r) then 1 else 0)
  }

  /** Before its i-th request the log ends with a grant of access that took effect: its URL is used at once. */
  ghost predicate GrantedBefore(log: seq<Entry>, i: int) {
    0 < i <= |log| && log[i - 1].op == GrantAccess && log[i - 1].took
  }

  /**
   Every request so far met the state it may meet, and every resource was created once if it is
   there and never if it is not.
   */
  ghost predicate SetupInv(c: Cloud, log: seq<Entry>) {
    && (forall i :: 0 <= i < |log| ==> MayIssue(log[i].op, log[i].before))
    && (forall i :: 0 <= i < |log| && log[i].op == StartCopy ==> GrantedBefore(log, i))
    && (c.dataDisks || c.diskAttached ==> c.vm != Absent)
    && (forall r :: PhaseOf(c, r) != Deleting && Creations(log, r) == if PhaseOf(c, r) == Absent then 0 else 1)
  }

  predicate Broken(c: Cloud, r: Resource) {
    PhaseOf(c, r) == Failed
  }

  /** What is there stays, and what has failed stays failed. */
  predicate StaysPhase(p: Phase, p': Phase) {
    (p != Absent ==> p' != Absent) && (p == Failed ==> p' == Failed)
  }

  predicate KeepsPhase(p: Phase, p': Phase) {
    StaysPhase(p, p') && (p == Succeeded ==> p' == Succeeded)
  }

  /** Nothing goes away, and what is finished stays finished, but for the VM, which an attach updates. */
  predicate Keeps(c: Cloud, c': Cloud) {
    && KeepsPhase(c.snapshot, c'.snapshot) && KeepsPhase(c.blob, c'.blob) && KeepsPhase(c.disk, c'.disk)
    && KeepsPhase(c.nic, c'.nic) && StaysPhase(c.vm, c'.vm)
    && (c.dataDisks ==> c'.dataDisks) && (c.diskAttached ==> c'.diskAttached)
  }

  lemma KeepsBoth(c: Cloud, c': Cloud, c'': Cloud)
    requires Keeps(c, c') && Keeps(c', c'')
    ensures Keeps(c, c'')
  {
  }

  lemma DriftKeepsSetup(c: Cloud, c': Cloud, log: seq<Entry>)
    requires SetupInv(c, log) && Drifts(c, c')
    ensures SetupInv(c', log) && Keeps(c, c')
    ensures forall r :: (PhaseOf(c, r) == Absent ==> PhaseOf(c', r) == Absent) && (Ready(c, r) ==> Ready(c', r))
  {
    DriftPhase(c, c');
    forall r
      ensures PhaseOf(c', r) != Deleting && (PhaseOf(c, r) == Absent <==> PhaseOf(c', r) == Absent)
    {
      assert PhaseDrifts(PhaseOf(c, r), PhaseOf(c', r)) && PhaseOf(c, r) != Deleting;
    }
    assert PhaseOf(c, Snapshot) == c.snapshot && PhaseOf(c, Disk) == c.disk && PhaseOf(c, Nic) == c.nic;
    assert PhaseOf(c, Vm) == c.vm && PhaseOf(c, Blob) == c.blob;
  }

  lemma IssueKeeps(c: Cloud, e: Entry)
    requires e.before == c && MayIssue(e.op, c)
    ensures Keeps(c, After(e))
  {
  }

  /** A request of a setup creates what is absent, and removes nothing. */
  lemma IssuePhase(e: Entry, r: Resource)
    requires MayIssue(e.op, e.before) && PhaseOf(e.before, r) != Deleting
    ensures PhaseOf(After(e), r) != Deleting
    ensures e.took && Created(e.op) == Some(r) ==> PhaseOf(e.before, r) == Absent && PhaseOf(After(e), r) != Absent
    ensures !(e.took && Created(e.op) == Some(r)) ==>
      (PhaseOf(After(e), r) == Absent <==> PhaseOf(e.before, r) == Absent)
  {
  }

  lemma CreationsMore(log: seq<Entry>, e: Entry, r: Resource)
    ensures Creations(log + [e], r) == Creations(log, r) + (if e.took && Created(e.op) == Some(r) then 1 else 0)
  {
    assert (log + [e])[..|log|] == log;
    hide Created;
  }

  lemma IssueCounts(log: seq<Entry>, e: Entry, r: Resource)
    requires SetupInv(e.before, log) && MayIssue(e.op, e.before)
    ensures PhaseOf(After(e), r) != Deleting
    ensures Creations(log + [e], r) == if PhaseOf(After(e), r) == Absent then 0 else 1
  {
    assert PhaseOf(e.before, r) != Deleting && Creations(log, r) == if PhaseOf(e.before, r) == Absent then 0 else 1;
    hide *;
    IssuePhase(e, r);
    CreationsMore(log, e, r);
  }

  lemma IssueKeepsSetup(c: Cloud, log: seq<Entry>, e: Entry)
    requires SetupInv(c, log) && e.before == c && MayIssue(e.op, c)
    requires e.op == StartCopy ==> GrantedBefore(log, |log|)
    ensures SetupInv(After(e), log + [e])
    ensures Keeps(c, After(e))
  {
    IssueKeeps(c, e);
    forall r
      ensures PhaseOf(After(e), r) != Deleting
      ensures Creations(log + [e], r) == if PhaseOf(After(e), r) == Absent then 0 else 1
    {
      IssueCounts(log, e, r);
    }
    hide Keeps;
    hide MayIssue;
    hide Creations;
    hide PhaseOf;
    hide After;
    var all := log + [e];
    forall i | 0 <= i < |all|
      ensures MayIssue(all[i].op, all[i].before)
    {
      if i < |log| { assert all[i] == log[i]; }
    }
    forall i | 0 <= i < |all| && all[i].op == StartCopy
      ensures GrantedBefore(all, i)
    {
      if i < |log| { assert all[i] == log[i] && GrantedBefore(log, i); }
    }
  }

  /** Something that setting up waits for has failed, and nothing in a setup creates it again. */
  predicate Stuck(c: Cloud, sameRegion: bool) {
    Broken(c, Snapshot) || Broken(c, Disk) || Broken(c, Nic) || Broken(c, Vm) || (!sameRegion && Broken(c, Blob))
  }

  /** It takes one request and the cloud failing it. */
  lemma StuckIsReachable(sameRegion: bool) returns (e: Entry, c: Cloud)
    ensures e == Entry(CreateSnapshot, NOTHING, true) && Drifts(After(e), c)
    ensures SetupInv(c, [e]) && Stuck(c, sameRegion)
  {
    e := Entry(CreateSnapshot, NOTHING, true);
    c := After(e).(snapshot := Failed);
    IssueKeepsSetup(NOTHING, [], e);
    assert [] + [e] == [e];
    DriftKeepsSetup(After(e), c, [e]);
  }

  const NOTHING := Cloud(Absent, Absent, Absent, Absent, Absent, false, false, false)

  lemma NothingIsSetUp()
    ensures SetupInv(NOTHING, [])
  {
  }

  /** What the invariant says of every request there has been. */
  lemma SetupMeaning(c: Cloud, log: seq<Entry>, i: nat)
    requires SetupInv(c, log) && i < |log|
    ensures var e := log[i];
            && (e.op == CreateDiskImport ==> e.before.blob == Succeeded && !e.before.sasGranted)
            && (e.op == CreateVm ==> e.before.snapshot == e.before.disk == e.before.nic == Succeeded)
            && (Created(e.op).Some? ==> PhaseOf(e.before, Created(e.op).value) == Absent)
            && (e.op == StartCopy ==> i > 0 && log[i - 1].op == GrantAccess && log[i - 1].took)
            && !e.op.Delete? && !e.op.AbortCopy?
    ensures forall r :: Creations(log, r) <= 1
  {
    assert MayIssue(log[i].op, log[i].before);
  }

  // ---------- Getting on with it ----------

  /** r was not ready in c, and in c' it is at least under way. */
  predicate UnderWay(c: Cloud, c': Cloud, r: Resource) {
    !Ready(c, r) && PhaseOf(c', r) != Absent
  }

  /** Something that a scan needs was not ready, and now is at least under way. */
  predicate Advanced(c: Cloud, c': Cloud, sameRegion: bool) {
    || UnderWay(c, c', Snapshot) || UnderWay(c, c', Disk) || UnderWay(c, c', Nic) || UnderWay(c, c', Vm)
    || (!sameRegion && UnderWay(c, c', Blob))
    || (!c.diskAttached && c'.dataDisks)
  }

  function One(missing: bool): nat {
    if missing then 1 else 0
  }

  /** How many steps of a setup have not been begun. */
  function Missing(c: Cloud, sameRegion: bool): nat {
    One(c.snapshot == Absent) + One(c.disk == Absent) + One(c.nic == Absent) + One(c.vm == Absent)
      + One(!sameRegion && c.blob == Absent) + One(!c.dataDisks)
  }

  lemma PhaseBegins(p: Phase, p': Phase, needed: bool)
    requires StaysPhase(p, p') && p !in {Creating, Updating, Deleting}
    ensures One(needed && p' == Absent) <= One(needed && p == Absent)
    ensures needed && p != Failed && p != Succeeded && p' != Absent ==>
      One(needed && p' == Absent) < One(needed && p == Absent)
  {
  }

  /** When everything begun was finished, advancing means to begin something that was missing. */
  lemma AdvancingBegins(c: Cloud, c': Cloud, log: seq<Entry>, sameRegion: bool)
    requires SetupInv(c, log) && Finished(c) && !Stuck(c, sameRegion)
    requires Keeps(c, c') && Advanced(c, c', sameRegion)
    ensures Missing(c', sameRegion) < Missing(c, sameRegion)
  {
    assert forall r :: PhaseOf(c, r) != Deleting;
    assert PhaseOf(c, Snapshot) == c.snapshot && PhaseOf(c, Disk) == c.disk && PhaseOf(c, Nic) == c.nic;
    assert PhaseOf(c, Vm) == c.vm && PhaseOf(c, Blob) == c.blob;
    assert c.dataDisks ==> c.diskAttached;
    hide SetupInv;
    PhaseBegins(c.snapshot, c'.snapshot, true);
    PhaseBegins(c.disk, c'.disk, true);
    PhaseBegins(c.nic, c'.nic, true);
    PhaseBegins(c.vm, c'.vm, true);
    PhaseBegins(c.blob, c'.blob, !sameRegion);
    assert One(!c'.dataDisks) <= One(!c.dataDisks);
    assert !c.dataDisks && c'.dataDisks ==> One(!c'.dataDisks) < One(!c.dataDisks);
    hide One;
    hide StaysPhase;
  }

  lemma KeepingBeginsNoLess(c: Cloud, c': Cloud, sameRegion: bool)
    requires Keeps(c, c')
    ensures Missing(c', sameRegion) <= Missing(c, sameRegion)
  {
  }

  /** The requests that a setup makes: the blob and its access are for another region only. */
  function SetupOps(sameRegion: bool): set<Op> {
    {CreateSnapshot, CreateNic, CreateVm, AttachDisk} +
    if sameRegion then {CreateDiskCopy} else {GrantAccess, StartCopy, RevokeAccess, CreateDiskImport}
  }

  ghost predicate OnlyOps(log: seq<Entry>, n: nat, ops: set<Op>) {
    forall i :: n <= i < |log| ==> log[i].op in ops
  }

  // ---------- Tearing down ----------

  /** The order in which the resources are removed. */
  function Stage(r: Resource): nat {
    match r
    case Vm => 0
    case Nic => 1
    case Disk => 2
    case Blob => 3
    case Snapshot => 4
  }

  predicate StagesGone(c: Cloud, n: nat) {
    && (n > 0 ==> c.vm == Absent) && (n > 1 ==> c.nic == Absent) && (n > 2 ==> c.disk == Absent)
    && (n > 3 ==> c.blob == Absent) && (n > 4 ==> c.snapshot == Absent)
  }

  predicate MayRemove(op: Op, c: Cloud) {
    match op
    case AbortCopy => StagesGone(c, Stage(Blob))
    case Delete(r) => StagesGone(c, Stage(r)) && (r == Blob ==> c.blob != Creating)
    case _ => false
  }

  ghost predicate RemovalsFrom(log: seq<Entry>, n: nat)
    requires n <= |log|
  {
    forall i :: n <= i < |log| ==> MayRemove(log[i].op, log[i].before)
  }

  function PhaseWeight(p: Phase): nat {
    match p
    case Absent => 0
    case Deleting => 1
    case Succeeded => 2
    case Failed => 2
    case Creating => 3
    case Updating => 3
  }

  /** What is left to be removed. */
  function Weight(c: Cloud): nat {
    PhaseWeight(c.vm) + PhaseWeight(c.nic) + PhaseWeight(c.disk) + PhaseWeight(c.blob) + PhaseWeight(c.snapshot)
  }

  function SettlePhase(p: Phase): Phase {
    if p == Deleting then Absent else p
  }

  /** The cloud once the deletions in progress are through. */
  function Settle(c: Cloud): Cloud {
    c.(vm := SettlePhase(c.vm), nic := SettlePhase(c.nic), disk := SettlePhase(c.disk),
       blob := SettlePhase(c.blob), snapshot := SettlePhase(c.snapshot))
  }

  lemma DriftSheds(c: Cloud, c': Cloud)
    requires Drifts(c, c')
    ensures Weight(c') <= Weight(c) && Weight(Settle(c')) <= Weight(c')
    ensures forall n :: StagesGone(c, n) ==> StagesGone(c', n)
  {
    DriftShedsPhase(c.vm, c'.vm);
    DriftShedsPhase(c.nic, c'.nic);
    DriftShedsPhase(c.disk, c'.disk);
    DriftShedsPhase(c.blob, c'.blob);
    DriftShedsPhase(c.snapshot, c'.snapshot);
    hide PhaseWeight;
    hide SettlePhase;
    hide PhaseDrifts;
  }

  lemma DriftShedsPhase(p: Phase, p': Phase)
    requires PhaseDrifts(p, p')
    ensures PhaseWeight(p') <= PhaseWeight(p) && PhaseWeight(SettlePhase(p')) <= PhaseWeight(p')
    ensures p == Absent ==> p' == Absent
  {
  }

  /** A removal request never adds weight or brings back what is gone. */
  lemma RemovalNeverAdds(e: Entry)
    requires MayRemove(e.op, e.before)
    ensures Weight(After(e)) <= Weight(e.before)
    ensures forall n :: StagesGone(e.before, n) ==> StagesGone(After(e), n)
  {
  }

  function Target(op: Op): Resource
    requires op.Delete? || op.AbortCopy?
  {
    if op.Delete? then op.r else Blob
  }

  lemma PhaseSheds(c: Cloud, e: Entry, r: Resource)
    requires Drifts(c, e.before) && e.took
    requires (e.op.Delete? && PhaseOf(c, e.op.r) != Absent) || (e.op.AbortCopy? && c.blob == Creating)
    ensures PhaseWeight(SettlePhase(PhaseOf(After(e), r))) <=
      PhaseWeight(PhaseOf(c, r)) - (if r == Target(e.op) then 1 else 0)
  {
    DriftPhase(c, e.before);
    assert PhaseDrifts(PhaseOf(c, r), PhaseOf(e.before, r));
    hide Drifts;
  }

  /**
   Seen from the state c in which the resource was found, an effective removal request leaves
   strictly less once the deletions are through, whatever the cloud did in between.
   */
  lemma RemovalSheds(c: Cloud, e: Entry)
    requires Drifts(c, e.before) && e.took
    requires (e.op.Delete? && PhaseOf(c, e.op.r) != Absent) || (e.op.AbortCopy? && c.blob == Creating)
    ensures Weight(Settle(After(e))) < Weight(c)
  {
    PhaseSheds(c, e, Vm);
    PhaseSheds(c, e, Nic);
    PhaseSheds(c, e, Disk);
    PhaseSheds(c, e, Blob);
    PhaseSheds(c, e, Snapshot);
    hide Drifts;
    hide After;
    hide PhaseWeight;
    hide SettlePhase;
  }
}

/** The provider's stages: each looks first, and acts only when something is missing or still there. */
module AzureProvider {
  import opened Common
  import opened AzureCloud
  import opened AzureProtocol

  datatype StageResult = Done | Error(err: ProviderError)

  /** A call that fails ends the attempt, with its error; without one the outcome is success or a request to retry. */
  ghost predicate Reported(before: seq<ApiError>, after: seq<ApiError>, result: StageResult) {
    if after == before then result.Done? || result == Error(Retryable)
    else |after| == |before| + 1 && before <= after && result == Error(Severity(after[|before|]))
  }

  class Provider {
    const world: World

    constructor (world: World)
      ensures this.world == world
    {
      this.world := world;
    }

    ghost predicate SetupValid()
      reads world
    {
      SetupInv(world.cloud, world.log)
    }

    /** What every stage of a setup guarantees, given the requests it may make. */
    twostate predicate SetupStep(result: StageResult, ops: set<Op>)
      reads world
    {
      && SetupValid() && Keeps(old(world.cloud), world.cloud)
      && old(world.log) <= world.log && OnlyOps(world.log, |old(world.log)|, ops)
      && Reported(old(world.failures), world.failures, result)
      && (AttachDisk !in ops && Ready(old(world.cloud), Vm) ==> Ready(world.cloud, Vm))
      && (GrantAccess !in ops && world.cloud.sasGranted ==> old(world.cloud.sasGranted))
    }

    /** A stage is done when r is ready; asked to be retried, it has at least got r under way. */
    twostate predicate Ensured(r: Resource, result: StageResult)
      reads world
    {
      && (result.Done? ==> Ready(world.cloud, r))
      && (result == Error(Retryable) ==> UnderWay(old(world.cloud), world.cloud, r))
    }

    /** A read in the middle of a setup. */
    method Look(r: Resource) returns (found: Found)
      requires SetupValid()
      modifies world
      ensures SetupValid() && Keeps(old(world.cloud), world.cloud) && world.log == old(world.log)
      ensures found.Found? ==>
        PhaseOf(world.cloud, r) == found.phase && found.phase != Absent && found.attached == world.cloud.diskAttached
      ensures found == GetFailed(ResponseError(NOT_FOUND)) ==> PhaseOf(world.cloud, r) == Absent
      ensures world.failures ==
        if found.Found? || found.err == ResponseError(NOT_FOUND) then old(world.failures)
        else old(world.failures) + [found.err]
      ensures world.cloud.sasGranted ==> old(world.cloud.sasGranted)
      ensures forall x :: Ready(old(world.cloud), x) ==> Ready(world.cloud, x)
    {
      ghost var before := world.cloud;
      found := world.Get(r);
      DriftKeepsSetup(before, world.cloud, world.log);
    }

    /** A setup request, issued in a state that it may meet whatever the cloud does in between. */
    method Request(op: Op) returns (err: Option<ApiError>)
      requires SetupValid() && MayIssue(op, world.cloud)
      requires op == StartCopy ==> GrantedBefore(world.log, |world.log|)
      modifies world
      ensures SetupValid() && Keeps(old(world.cloud), world.cloud)
      ensures old(world.log) <= world.log && |world.log| == |old(world.log)| + 1
      ensures world.log[|old(world.log)|].op == op && (err.None? ==> world.log[|old(world.log)|].took)
      ensures world.failures == if err.Some? then old(world.failures) + [err.value] else old(world.failures)
      ensures op == RevokeAccess && err.None? ==> !world.cloud.sasGranted
      ensures op != GrantAccess && world.cloud.sasGranted ==> old(world.cloud.sasGranted)
      ensures op == GrantAccess && old(world.cloud.blob) == Absent ==> world.cloud.blob == Absent
      ensures op != AttachDisk && Ready(old(world.cloud), Vm) ==> Ready(world.cloud, Vm)
      ensures err.None? && Created(op).Some? ==> PhaseOf(world.cloud, Created(op).value) != Absent
      ensures err.None? && op == AttachDisk ==> world.cloud.dataDisks
    {
      ghost var cloud, log := world.cloud, world.log;
      err := world.Do(op);
      ghost var e :| world.log == log + [e] && e.op == op && Drifts(cloud, e.before) && world.cloud == After(e)
        && (err.None? ==> e.took);
      DriftKeepsSetup(cloud, e.before, log);
      MayIssueStable(op, cloud, e.before, log);
      IssueKeepsSetup(e.before, log, e);
      RequestMeaning(cloud, e);
      KeepsBoth(cloud, e.before, world.cloud);
      hide *;
    }

    /** The common shape of get-or-create: found and ready, found and not ready, absent, or in trouble. */
    method EnsureCreated(r: Resource, op: Op) returns (result: StageResult)
      requires SetupValid() && Created(op) == Some(r) && op != StartCopy
      requires forall c ::
        Keeps(world.cloud, c) && (c.sasGranted ==> world.cloud.sasGranted) && PhaseOf(c, r) == Absent ==>
          MayIssue(op, c)
      modifies world
      ensures SetupStep(result, {op}) && Ensured(r, result)
    {
      var found := Look(r);
      match found {
        case Found(phase, _) =>
          result := if phase == Succeeded then Done else Error(Retryable);
        case GetFailed(err) =>
          var (notFound, providerErr) := HandleAzureRequestError(err);
          if !notFound {
            return Error(providerErr);
          }
          var failed := Request(op);
          if failed.Some? {
            return Error(HandleAzureRequestError(failed.value).1);
          }
          result := Error(Retryable);
      }
    }

    method EnsureSnapshotForVMRootVolume() returns (result: StageResult)
      requires SetupValid()
      modifies world
      ensures SetupStep(result, {CreateSnapshot}) && Ensured(Snapshot, result)
    {
      result := EnsureCreated(Snapshot, CreateSnapshot);
    }

    method EnsureManagedDiskFromSnapshot() returns (result: StageResult)
      requires SetupValid() && Ready(world.cloud, Snapshot)
      modifies world
      ensures SetupStep(result, {CreateDiskCopy}) && Ensured(Disk, result)
    {
      result := EnsureCreated(Disk, CreateDiskCopy);
    }

    /** Grant, copy, revoke: done only when the copy has succeeded and the access is revoked. */
    method EnsureBlobFromSnapshot() returns (result: StageResult)
      requires SetupValid() && Ready(world.cloud, Snapshot)
      modifies world
      ensures SetupStep(result, {GrantAccess, StartCopy, RevokeAccess}) && Ensured(Blob, result)
      ensures result.Done? ==> !world.cloud.sasGranted
    {
      hide SetupInv;
      var found := Look(Blob);
      if found.Found? {
        if found.phase != Succeeded {
          return Error(Retryable);
        }
        var failed := Request(RevokeAccess);
        if failed.Some? {
          return Error(HandleAzureRequestError(failed.value).1);
        }
        return Done;
      }
      var (notFound, providerErr) := HandleAzureRequestError(found.err);
      if !notFound {
        return Error(providerErr);
      }
      var failed := Request(GrantAccess);
      if failed.Some? {
        return Error(HandleAzureRequestError(failed.value).1);
      }
      failed := Request(StartCopy);
      if failed.Some? {
        return Error(HandleAzureRequestError(failed.value).1);
      }
      return Error(Retryable);
    }

    method EnsureManagedDiskFromSnapshotInDifferentRegion() returns (result: StageResult)
      requires SetupValid() && Ready(world.cloud, Snapshot)
      modifies world
      ensures SetupStep(result, {GrantAccess, StartCopy, RevokeAccess, CreateDiskImport})
      ensures result.Done? ==> Ready(world.cloud, Disk) && Ready(world.cloud, Blob) && !world.cloud.sasGranted
      ensures result == Error(Retryable) ==>
        UnderWay(old(world.cloud), world.cloud, Blob) || UnderWay(old(world.cloud), world.cloud, Disk)
    {
      hide SetupInv;
      result := EnsureBlobFromSnapshot();
      if result.Done? {
        result := EnsureCreated(Disk, CreateDiskImport);
      }
    }

    method EnsureNetworkInterface() returns (result: StageResult)
      requires SetupValid() && Ready(world.cloud, Snapshot) && Ready(world.cloud, Disk)
      modifies world
      ensures SetupStep(result, {CreateNic}) && Ensured(Nic, result)
    {
      result := EnsureCreated(Nic, CreateNic);
    }

    method EnsureScannerVirtualMachine() returns (result: StageResult)
      requires SetupValid() && Ready(world.cloud, Snapshot) && Ready(world.cloud, Disk) && Ready(world.cloud, Nic)
      modifies world
      ensures SetupStep(result, {CreateVm}) && Ensured(Vm, result)
    {
      result := EnsureCreated(Vm, CreateVm);
    }

    /**
     Whether the disk is recognised among the VM's data disks is a comparison of pointers: anything
     can come out for a VM that lists one. Asked to be retried, the VM at least lists one.
     */
    method EnsureDiskAttachedToScannerVM() returns (result: StageResult)
      requires SetupValid() && Ready(world.cloud, Snapshot) && Ready(world.cloud, Disk) && Ready(world.cloud, Nic)
      requires Ready(world.cloud, Vm)
      modifies world
      ensures SetupStep(result, {AttachDisk})
      ensures result.Done? ==> world.cloud.diskAttached
      ensures result == Error(Retryable) ==> !old(world.cloud.diskAttached) && world.cloud.dataDisks
    {
      var equal: bool := *;
      var vmAttachedToDisk := world.cloud.dataDisks && equal;
      if !vmAttachedToDisk {
        var failed := Request(AttachDisk);
        if failed.Some? {
          return Error(HandleAzureRequestError(failed.value).1);
        }
      }
      var found := Look(Disk);
      match found {
        case Found(_, attached) => result := if attached then Done else Error(Retryable);
        case GetFailed(err) => result := Error(HandleAzureRequestError(err).1);
      }
    }

    /** The disk to be scanned, copied from the snapshot or imported from the blob in between. */
    method EnsureDisk(sameRegion: bool) returns (result: StageResult)
      requires SetupValid() && Ready(world.cloud, Snapshot)
      modifies world
      ensures SetupStep(result,
                if sameRegion then {CreateDiskCopy} else {GrantAccess, StartCopy, RevokeAccess, CreateDiskImport})
      ensures result.Done? ==>
        Ready(world.cloud, Disk) && (!sameRegion ==> Ready(world.cloud, Blob) && !world.cloud.sasGranted)
      ensures result == Error(Retryable) ==>
        UnderWay(old(world.cloud), world.cloud, Disk)
          || (!sameRegion && UnderWay(old(world.cloud), world.cloud, Blob))
    {
      hide *;
      if sameRegion {
        result := EnsureManagedDiskFromSnapshot();
      } else {
        result := EnsureManagedDiskFromSnapshotInDifferentRegion();
      }
    }

    /** The scanner's network interface and VM, and the disk attached to it. */
    method EnsureScanner() returns (result: StageResult)
      requires SetupValid() && Ready(world.cloud, Snapshot) && Ready(world.cloud, Disk)
      modifies world
      ensures SetupStep(result, {CreateNic, CreateVm, AttachDisk})
      ensures result.Done? ==> Ready(world.cloud, Nic) && world.cloud.diskAttached && !Broken(old(world.cloud), Vm)
      ensures result == Error(Retryable) ==>
        || UnderWay(old(world.cloud), world.cloud, Nic) || UnderWay(old(world.cloud), world.cloud, Vm)
        || (!old(world.cloud.diskAttached) && world.cloud.dataDisks)
    {
      hide SetupInv;
      result := EnsureNetworkInterface();
      if result.Error? {
        return;
      }
      result := EnsureScannerVirtualMachine();
      if result.Error? {
        return;
      }
      result := EnsureDiskAttachedToScannerVM();
    }

    /**
     One attempt at setting up a scan; `assetVm` is the outcome of reading the VM to be scanned.
     In every sequence of attempts each request meets only states it may meet, and each resource
     is created at most once. Asked to be retried, something that was not ready is under way. Once
     something has failed, no attempt succeeds.
     */
    method RunAssetScan(assetVm: Option<ApiError>, sameRegion: bool) returns (result: StageResult)
      requires SetupValid()
      modifies world
      ensures SetupValid() && Keeps(old(world.cloud), world.cloud)
      ensures old(world.log) <= world.log && OnlyOps(world.log, |old(world.log)|, SetupOps(sameRegion))
      ensures
        if assetVm.Some? then result == Error(Severity(assetVm.value)) && world.failures == old(world.failures)
        else Reported(old(world.failures), world.failures, result)
      ensures result.Done? ==>
        && Ready(world.cloud, Snapshot) && Ready(world.cloud, Disk) && Ready(world.cloud, Nic)
          && world.cloud.diskAttached
        && (!sameRegion ==> Ready(world.cloud, Blob) && !world.cloud.sasGranted)
      ensures result == Error(Retryable) ==> Advanced(old(world.cloud), world.cloud, sameRegion)
      ensures Stuck(old(world.cloud), sameRegion) ==> result.Error? && Stuck(world.cloud, sameRegion)
    {
      hide SetupInv;
      if assetVm.Some? {
        return Error(HandleAzureRequestError(assetVm.value).1);
      }
      result := EnsureSnapshotForVMRootVolume();
      if result.Error? {
        return;
      }
      result := EnsureDisk(sameRegion);
      if result.Error? {
        return;
      }
      result := EnsureScanner();
    }

    // ---------- Removal ----------

    /** What one stage of a removal guarantees, whatever fails and whatever the cloud does meanwhile. */
    twostate predicate StageOutcome(r: Resource, result: StageResult)
      reads world
    {
      && Reported(old(world.failures), world.failures, result)
      && old(world.log) <= world.log && RemovalsFrom(world.log, |old(world.log)|)
      && StagesGone(world.cloud, Stage(r))
      && Weight(world.cloud) <= old(Weight(world.cloud))
      && (result.Done? ==> PhaseOf(world.cloud, r) == Absent)
      && (result == Error(Retryable) ==> Weight(Settle(world.cloud)) < old(Weight(world.cloud)))
    }

    /** A removal request, in the part of the world that the earlier stages have emptied. */
    method Remove(op: Op, r: Resource) returns (err: Option<ApiError>)
      requires StagesGone(world.cloud, Stage(r))
      requires (op == Delete(r) && PhaseOf(world.cloud, r) != Absent && (r == Blob ==> world.cloud.blob != Creating))
        || (op == AbortCopy && r == Blob && world.cloud.blob == Creating)
      modifies world
      ensures old(world.log) <= world.log && RemovalsFrom(world.log, |old(world.log)|)
      ensures StagesGone(world.cloud, Stage(r)) && Weight(world.cloud) <= old(Weight(world.cloud))
      ensures err.None? ==> Weight(Settle(world.cloud)) < old(Weight(world.cloud))
      ensures world.failures == if err.Some? then old(world.failures) + [err.value] else old(world.failures)
    {
      ghost var cloud, log := world.cloud, world.log;
      err := world.Do(op);
      ghost var e :| world.log == log + [e] && e.op == op && Drifts(cloud, e.before) && world.cloud == After(e)
        && (err.None? ==> e.took);
      DriftSheds(cloud, e.before);
      RemovalNeverAdds(e);
      if e.took { RemovalSheds(cloud, e); }
    }

    method EnsureDeleted(r: Resource) returns (result: StageResult)
      requires r != Blob && StagesGone(world.cloud, Stage(r))
      modifies world
      ensures StageOutcome(r, result)
    {
      ghost var cloud := world.cloud;
      var found := world.Get(r);
      DriftSheds(cloud, world.cloud);
      if found.GetFailed? {
        var (notFound, providerErr) := HandleAzureRequestError(found.err);
        return if notFound then Done else Error(providerErr);
      }
      var failed := Remove(Delete(r), r);
      if failed.Some? {
        return Error(HandleAzureRequestError(failed.value).1);
      }
      return Error(Retryable);
    }

    method EnsureBlobDeleted() returns (result: StageResult)
      requires StagesGone(world.cloud, Stage(Blob))
      modifies world
      ensures StageOutcome(Blob, result)
    {
      ghost var cloud := world.cloud;
      var found := world.Get(Blob);
      DriftSheds(cloud, world.cloud);
      if found.GetFailed? {
        var (notFound, providerErr) := HandleAzureRequestError(found.err);
        return if notFound then Done else Error(providerErr);
      }
      var failed := Remove(if found.phase == Creating then AbortCopy else Delete(Blob), Blob);
      if failed.Some? {
        return Error(HandleAzureRequestError(failed.value).1);
      }
      return Error(Retryable);
    }

    /**
     One attempt at removing everything. A deletion is requested only when all earlier stages are
     gone; success means that all five are; an attempt that asks to be retried leaves less; and any
     other error is that of a call that failed.
     */
    method RemoveAssetScan() returns (result: StageResult)
      modifies world
      ensures Reported(old(world.failures), world.failures, result)
      ensures old(world.log) <= world.log && RemovalsFrom(world.log, |old(world.log)|)
      ensures result.Done? ==> forall r :: PhaseOf(world.cloud, r) == Absent
      ensures Weight(world.cloud) <= old(Weight(world.cloud))
      ensures result == Error(Retryable) ==> Weight(Settle(world.cloud)) < old(Weight(world.cloud))
    {
      result := EnsureDeleted(Vm);
      if result.Error? {
        return;
      }
      result := EnsureDeleted(Nic);
      if result.Error? {
        return;
      }
      result := EnsureDeleted(Disk);
      if result.Error? {
        return;
      }
      result := EnsureBlobDeleted();
      if result.Error? {
        return;
      }
      result := EnsureDeleted(Snapshot);
    }
  }

  lemma MayIssueStable(op: Op, c: Cloud, c': Cloud, log: seq<Entry>)
    requires SetupInv(c, log) && Drifts(c, c') && MayIssue(op, c)
    ensures MayIssue(op, c')
  {
    DriftKeepsSetup(c, c', log);
    assert PhaseOf(c, Snapshot) == c.snapshot && PhaseOf(c, Disk) == c.disk && PhaseOf(c, Nic) == c.nic;
    assert PhaseOf(c, Vm) == c.vm;
  }

  /** What is there after a request that took effect. */
  lemma RequestMeaning(c: Cloud, e: Entry)
    requires Drifts(c, e.before) && MayIssue(e.op, e.before)
    ensures e.op == RevokeAccess && e.took ==> !After(e).sasGranted
    ensures e.op != GrantAccess && After(e).sasGranted ==> c.sasGranted
    ensures e.op == GrantAccess && c.blob == Absent ==> After(e).blob == Absent
    ensures e.op != AttachDisk && Ready(c, Vm) ==> Ready(After(e), Vm)
    ensures e.took && Created(e.op).Some? ==> PhaseOf(After(e), Created(e.op).value) != Absent
    ensures e.took && e.op == AttachDisk ==> After(e).dataDisks
  {
  }

  /** Any number of further attempts once something has failed: all of them end in an error. */
  method RepeatStuck(p: Provider, attempts: nat, sameRegion: bool) returns (results: seq<StageResult>)
    requires p.SetupValid() && Stuck(p.world.cloud, sameRegion)
    modifies p.world
    ensures p.SetupValid() && Stuck(p.world.cloud, sameRegion)
    ensures |results| == attempts && forall i :: 0 <= i < |results| ==> results[i].Error?
  {
    results := [];
    for n := 0 to attempts
      invariant p.SetupValid() && Stuck(p.world.cloud, sameRegion)
      invariant |results| == n && forall i :: 0 <= i < |results| ==> results[i].Error?
    {
      var assetVm: Option<ApiError> := *;
      var result := p.RunAssetScan(assetVm, sameRegion);
      results := results + [result];
    }
  }

  /**
   Attempts from a cloud in which nothing is in progress, each after what the last one began has
   come to an end. They end, one attempt after the last missing step at the latest: the scan is
   set up, unless a call failed or a resource that it needs did.
   */
  method RunToReady(p: Provider, sameRegion: bool) returns (ready: bool, attempts: nat)
    requires p.SetupValid() && Finished(p.world.cloud)
    modifies p.world
    ensures p.SetupValid()
    ensures ready || p.world.failures != old(p.world.failures) || Stuck(p.world.cloud, sameRegion)
    ensures ready ==>
      Ready(p.world.cloud, Snapshot) && Ready(p.world.cloud, Disk) && Ready(p.world.cloud, Nic)
        && p.world.cloud.diskAttached
    ensures attempts <= 1 + old(Missing(p.world.cloud, sameRegion))
    ensures OnlyOps(p.world.log, |old(p.world.log)|, SetupOps(sameRegion))
  {
    attempts, ready := 0, false;
    while !Stuck(p.world.cloud, sameRegion)
      invariant p.SetupValid() && Finished(p.world.cloud) && p.world.failures == old(p.world.failures)
      invariant old(p.world.log) <= p.world.log && OnlyOps(p.world.log, |old(p.world.log)|, SetupOps(sameRegion))
      invariant attempts + Missing(p.world.cloud, sameRegion) <= old(Missing(p.world.cloud, sameRegion))
      decreases Missing(p.world.cloud, sameRegion)
    {
      ghost var before, log := p.world.cloud, p.world.log;
      var result := p.RunAssetScan(None, sameRegion);
      OnlyOpsAppend(log, p.world.log, |old(p.world.log)|, SetupOps(sameRegion));
      attempts := attempts + 1;
      if result != Error(Retryable) {
        return result.Done?, attempts;
      }
      AdvancingBegins(before, p.world.cloud, log, sameRegion);
      ghost var after := p.world.cloud;
      p.world.Finish();
      DriftKeepsSetup(after, p.world.cloud, p.world.log);
      KeepingBeginsNoLess(after, p.world.cloud, sameRegion);
    }
  }

  lemma OnlyOpsAppend(log: seq<Entry>, log': seq<Entry>, n: nat, ops: set<Op>)
    requires n <= |log| && log <= log' && OnlyOps(log, n, ops) && OnlyOps(log', |log|, ops)
    ensures OnlyOps(log', n, ops)
  {
    assert forall i :: 0 <= i < |log| ==> log'[i] == log[i];
  }

  /** From nothing, six attempts in the region of the scanned VM and seven from another are enough. */
  method SetUp(sameRegion: bool) returns (p: Provider, ready: bool, attempts: nat)
    ensures fresh(p) && fresh(p.world)
    ensures ready || p.world.failures != [] || Stuck(p.world.cloud, sameRegion)
    ensures attempts <= if sameRegion then 6 else 7
  {
    NothingIsSetUp();
    var world := new World(NOTHING);
    p := new Provider(world);
    ready, attempts := RunToReady(p, sameRegion);
  }

  /**
   Any number of attempts at setting up one scan, from a cloud that has nothing of it yet; reading
   the VM to be scanned may turn out differently each time.
   */
  method RunAttempts(attempts: nat, sameRegion: bool) returns (p: Provider, ready: bool)
    ensures fresh(p) && fresh(p.world)
    ensures forall i :: 0 <= i < |p.world.log| ==> MayIssue(p.world.log[i].op, p.world.log[i].before)
    ensures forall r :: Creations(p.world.log, r) <= 1
    ensures ready ==>
      Ready(p.world.cloud, Snapshot) && Ready(p.world.cloud, Disk) && Ready(p.world.cloud, Nic)
        && p.world.cloud.diskAttached
  {
    NothingIsSetUp();
    var world := new World(NOTHING);
    p := new Provider(world);
    ready := false;
    for n := 0 to attempts
      invariant fresh(p) && fresh(p.world) && p.SetupValid()
    {
      var assetVm: Option<ApiError> := *;
      var result := p.RunAssetScan(assetVm, sameRegion);
      if result.Done? {
        return p, true;
      }
    }
  }

  /** A deletion is still in progress. */
  predicate StillDeleting(c: Cloud) {
    Deleting in {c.vm, c.nic, c.disk, c.blob, c.snapshot}
  }

  lemma SettlePhaseDrifts(p: Phase, p': Phase)
    requires PhaseDrifts(p, p')
    ensures PhaseWeight(SettlePhase(p')) <= PhaseWeight(SettlePhase(p))
  {
  }

  /** Once no deletion is in progress any more, what is left is what would have been left at once, or less. */
  lemma DeletionsThrough(c: Cloud, c': Cloud)
    requires Drifts(c, c')
    ensures !StillDeleting(c') ==> Weight(c') <= Weight(Settle(c))
  {
    SettlePhaseDrifts(c.vm, c'.vm);
    SettlePhaseDrifts(c.nic, c'.nic);
    SettlePhaseDrifts(c.disk, c'.disk);
    SettlePhaseDrifts(c.blob, c'.blob);
    SettlePhaseDrifts(c.snapshot, c'.snapshot);
    assert !StillDeleting(c') ==> Settle(c') == c';
    hide PhaseWeight;
    hide PhaseDrifts;
  }

  /**
   Retrying until everything is gone, with the cloud doing what it likes between two attempts. The
   loop ends; it gives up only after more errors than tolerated, or after more attempts than it
   had patience for found a deletion still in progress when they were to be repeated.
   */
  method RetryRemoval(p: Provider, tolerated: nat, patience: nat) returns (gone: bool, errors: nat, early: nat)
    modifies p.world
    ensures if gone then forall r :: PhaseOf(p.world.cloud, r) == Absent else errors > tolerated || early > patience
    ensures old(p.world.log) <= p.world.log && RemovalsFrom(p.world.log, |old(p.world.log)|)
    ensures errors == |p.world.failures| - |old(p.world.failures)|
  {
    errors, early := 0, 0;
    while true
      invariant errors <= tolerated && early <= patience
      invariant errors == |p.world.failures| - |old(p.world.failures)|
      invariant old(p.world.log) <= p.world.log && RemovalsFrom(p.world.log, |old(p.world.log)|)
      decreases tolerated - errors + (patience - early) + Weight(p.world.cloud)
    {
      ghost var log := p.world.log;
      var result := p.RemoveAssetScan();
      RemovalsAppend(log, p.world.log, |old(p.world.log)|);
      if result.Done? {
        return true, errors, early;
      }
      ghost var cloud := p.world.cloud;
      p.world.Drift();
      DriftSheds(cloud, p.world.cloud);
      DeletionsThrough(cloud, p.world.cloud);
      if result != Error(Retryable) {
        errors := errors + 1;
        if errors > tolerated {
          return false, errors, early;
        }
      } else if StillDeleting(p.world.cloud) {
        early := early + 1;
        if early > patience {
          return false, errors, early;
        }
      }
    }
  }

  lemma RemovalsAppend(log: seq<Entry>, log': seq<Entry>, n: nat)
    requires n <= |log| && log <= log' && RemovalsFrom(log, n) && RemovalsFrom(log', |log|)
    ensures RemovalsFrom(log', n)
  {
    assert forall i :: 0 <= i < |log| ==> log'[i] == log[i];
  }
}
