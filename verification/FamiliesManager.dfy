/** The scanner's families: the order in which they are set up, and the loop that runs them. */
module FamiliesManager {
  import opened Common

  datatype FamilyType = SBOM | Vulnerabilities | Secrets | Rootkits | Malware | Misconfiguration | InfoFinder | Exploits

  /** The order in which New appends: producers before those that use their output. */
  const ORDER: seq<FamilyType> :=
    [SBOM, Vulnerabilities, Secrets, Rootkits, Malware, Misconfiguration, InfoFinder, Exploits]

  function Enabled(order: seq<FamilyType>, config: set<FamilyType>): seq<FamilyType> {
    if order == [] then []
    else
      var n := |order| - 1;
      Enabled(order[..n], config) + (if order[n] in config then [order[n]] else [])
  }

  lemma {:induction false} EnabledKeepsOrder(order: seq<FamilyType>, config: set<FamilyType>)
    requires forall i, j :: 0 <= i < j < |order| ==> order[i] != order[j]
    ensures forall f :: f in Enabled(order, config) <==> f in order && f in config
    ensures forall i, j :: 0 <= i < j < |Enabled(order, config)| ==>
      Before(order, Enabled(order, config)[i], Enabled(order, config)[j])
  {
    if order == [] {
    } else {
      var n := |order| - 1;
      EnabledKeepsOrder(order[..n], config);
      assert order == order[..n] + [order[n]];
      var init, all := Enabled(order[..n], config), Enabled(order, config);
      forall i, j | 0 <= i < j < |all|
        ensures Before(order, all[i], all[j])
      {
        if j < |init| {
          assert Before(order[..n], init[i], init[j]);
          var p, q :| 0 <= p < q < n && order[..n][p] == init[i] && order[..n][q] == init[j];
          assert order[p] == all[i] && order[q] == all[j];
        } else {
          assert init[i] in order[..n];
          var p :| 0 <= p < n && order[..n][p] == init[i];
          assert order[p] == all[i] && order[n] == all[j];
        }
      }
    }
  }

  ghost predicate Before(order: seq<FamilyType>, f: FamilyType, g: FamilyType) {
    exists p, q :: 0 <= p < q < |order| && order[p] == f && order[q] == g
  }

  lemma OrderIsComplete(f: FamilyType)
    ensures f in ORDER
  {
    match f
    case SBOM => assert ORDER[0] == f;
    case Vulnerabilities => assert ORDER[1] == f;
    case Secrets => assert ORDER[2] == f;
    case Rootkits => assert ORDER[3] == f;
    case Malware => assert ORDER[4] == f;
    case Misconfiguration => assert ORDER[5] == f;
    case InfoFinder => assert ORDER[6] == f;
    case Exploits => assert ORDER[7] == f;
  }

  /** A family's place in the order. */
  function Place(f: FamilyType): nat {
    match f
    case SBOM => 0
    case Vulnerabilities => 1
    case Secrets => 2
    case Rootkits => 3
    case Malware => 4
    case Misconfiguration => 5
    case InfoFinder => 6
    case Exploits => 7
  }

  lemma PlacesAscend(f: FamilyType, g: FamilyType)
    requires Before(ORDER, f, g)
    ensures Place(f) < Place(g)
  {
  }

  /**
   Every enabled family is there once, in ascending order; in particular SBOM precedes
   Vulnerabilities, which precede Exploits.
   */
  lemma FamiliesInOrder(config: set<FamilyType>)
    ensures var fs := Enabled(ORDER, config);
            && (forall f :: f in fs <==> f in config)
            && (forall i, j :: 0 <= i < j < |fs| ==> Place(fs[i]) < Place(fs[j]))
            && (forall i, j :: 0 <= i < |fs| && 0 <= j < |fs| && fs[i] == SBOM && fs[j] == Vulnerabilities ==> i < j)
            && (forall i, j :: 0 <= i < |fs| && 0 <= j < |fs| && fs[i] == Vulnerabilities && fs[j] == Exploits ==>
              i < j)
  {
    EnabledKeepsOrder(ORDER, config);
    var fs := Enabled(ORDER, config);
    hide Enabled;
    forall f: FamilyType
      ensures f in ORDER
    {
      OrderIsComplete(f);
    }
    forall i, j | 0 <= i < j < |fs|
      ensures Place(fs[i]) < Place(fs[j])
    {
      PlacesAscend(fs[i], fs[j]);
    }
  }

  // ---------- Running ----------

  type Result = string

  datatype Outcome = Succeeded(result: Result) | Failed | Aborted

  datatype Note = Started(f: FamilyType) | Finished(f: FamilyType, outcome: Outcome)

  datatype Error = StartNotification(f: FamilyType) | FinishNotification(f: FamilyType) | FamilyFailed

  /** What happens around family i: whether the notifier fails and whether the context ends first. */
  datatype Surroundings = Surroundings(startFails: bool, contextEnds: bool, finishFails: bool)

  /** The families with what surrounds each, and what each computes from the results it is given. */
  datatype Setup = Setup(families: seq<FamilyType>, around: seq<Surroundings>,
    run: (FamilyType, seq<Result>) -> Option<Result>)
  {
    predicate Valid() { |families| == |around| }
  }

  /** The results of the families before i that were started, not aborted and successful. */
  function ResultsBefore(s: Setup, i: nat): seq<Result>
    requires s.Valid() && i <= |s.families|
  {
    if i == 0 then []
    else
      var before := ResultsBefore(s, i - 1);
      var outcome := OutcomeOf(s, i - 1, before);
      if !s.around[i - 1].startFails && outcome.Succeeded? then before + [outcome.result] else before
  }

  function OutcomeOf(s: Setup, i: nat, given: seq<Result>): Outcome
    requires s.Valid() && i < |s.families|
  {
    if s.around[i].contextEnds then Aborted
    else
      var r := s.run(s.families[i], given);
      if r.Some? then Succeeded(r.value) else Failed
  }

  /** The notifications that family i causes: one start, and one finish exactly if the start went through. */
  function NotesOf(s: Setup, i: nat): seq<Note>
    requires s.Valid() && i < |s.families|
  {
    [Started(s.families[i])] +
    (if s.around[i].startFails then [] else [Finished(s.families[i], OutcomeOf(s, i, ResultsBefore(s, i)))])
  }

  function NotesUpTo(s: Setup, i: nat): seq<Note>
    requires s.Valid() && i <= |s.families|
  {
    if i == 0 then [] else NotesUpTo(s, i - 1) + NotesOf(s, i - 1)
  }

  /** Family i was started, ran to its end without error, and both notifications went through. */
  ghost predicate WentWell(s: Setup, i: nat)
    requires s.Valid() && i < |s.families|
  {
    && !s.around[i].startFails && !s.around[i].finishFails
    && OutcomeOf(s, i, ResultsBefore(s, i)).Succeeded?
  }

  ghost predicate AllWentWell(s: Setup, n: nat)
    requires s.Valid() && n <= |s.families|
  {
    forall i :: 0 <= i < n ==> WentWell(s, i)
  }

  /** Family i was started and came to its end with r, from the results it was given. */
  ghost predicate Yielded(s: Setup, i: int, r: Option<Result>)
    requires s.Valid()
  {
    && 0 <= i < |s.families| && !s.around[i].startFails && !s.around[i].contextEnds
    && s.run(s.families[i], ResultsBefore(s, i)) == r
  }

  /** The indices, in order, of the families before i whose results count. */
  ghost predicate AreSources(s: Setup, i: nat, sources: seq<nat>)
    requires s.Valid() && i <= |s.families|
  {
    && |sources| == |ResultsBefore(s, i)|
    && (forall p, q :: 0 <= p < q < |sources| ==> sources[p] < sources[q])
    && (forall p :: 0 <= p < |sources| ==> sources[p] < i && Yielded(s, sources[p], Some(ResultsBefore(s, i)[p])))
    && (forall j :: 0 <= j < i && j !in sources ==> forall r :: !Yielded(s, j, Some(r)))
  }

  lemma ResultsStep(s: Setup, n: nat, earlier: seq<nat>, r: Option<Result>)
    requires s.Valid() && n < |s.families| && AreSources(s, n, earlier)
    requires ResultsBefore(s, n + 1) == ResultsBefore(s, n) + (if r.Some? then [r.value] else [])
    requires if r.Some? then Yielded(s, n, r) else forall x :: !Yielded(s, n, Some(x))
    ensures AreSources(s, n + 1, earlier + (if r.Some? then [n] else []))
  {
    hide Yielded;
    hide ResultsBefore;
  }

  /** A family is given the results of all earlier families that were started and succeeded, in their order. */
  lemma {:induction false} ResultsMeaning(s: Setup, i: nat) returns (sources: seq<nat>)
    requires s.Valid() && i <= |s.families|
    ensures AreSources(s, i, sources)
  {
    if i == 0 {
      sources := [];
    } else {
      var n := i - 1;
      var earlier := ResultsMeaning(s, n);
      var outcome := OutcomeOf(s, n, ResultsBefore(s, n));
      var r := if !s.around[n].startFails && outcome.Succeeded? then Some(outcome.result) else None;
      hide AreSources;
      ResultsStep(s, n, earlier, r);
      sources := earlier + (if r.Some? then [n] else []);
    }
  }

  /** Family f is among the first n, and its start could not be notified. */
  ghost predicate StartUnnoticed(s: Setup, n: nat, f: FamilyType)
    requires s.Valid() && n <= |s.families|
  {
    exists i :: 0 <= i < n && s.families[i] == f && s.around[i].startFails
  }

  /** Family f is among the first n and was started, and its finish could not be notified. */
  ghost predicate FinishUnnoticed(s: Setup, n: nat, f: FamilyType)
    requires s.Valid() && n <= |s.families|
  {
    exists i :: 0 <= i < n && s.families[i] == f && !s.around[i].startFails && s.around[i].finishFails
  }

  /** Family i was started and failed or was aborted. */
  ghost predicate Fails(s: Setup, i: nat)
    requires s.Valid() && i < |s.families|
  {
    !s.around[i].startFails && (s.around[i].contextEnds || s.run(s.families[i], ResultsBefore(s, i)).None?)
  }

  ghost predicate SomeFailed(s: Setup, n: nat)
    requires s.Valid() && n <= |s.families|
  {
    exists i :: 0 <= i < n && Fails(s, i)
  }

  /** The notifications that could not be made, one by one. */
  ghost predicate Unnoticed(s: Setup, n: nat, errs: seq<Error>)
    requires s.Valid() && n <= |s.families|
  {
    && (forall f :: StartNotification(f) in errs <==> StartUnnoticed(s, n, f))
    && (forall f :: FinishNotification(f) in errs <==> FinishUnnoticed(s, n, f))
    && FamilyFailed !in errs
  }

  lemma ErrorsTurn(s: Setup, n: nat, errs: seq<Error>)
    requires s.Valid() && n < |s.families| && Unnoticed(s, n, errs)
    ensures var f, a := s.families[n], s.around[n];
            && Unnoticed(s, n + 1, errs + (if a.startFails then [StartNotification(f)]
                                           else if a.finishFails then [FinishNotification(f)] else []))
            && (SomeFailed(s, n + 1) <==> SomeFailed(s, n) || Fails(s, n))
            && (Fails(s, n) <==> !a.startFails && !OutcomeOf(s, n, ResultsBefore(s, n)).Succeeded?)
  {
    hide ResultsBefore;
    var f, a := s.families[n], s.around[n];
    assert forall g :: StartUnnoticed(s, n + 1, g) <==> StartUnnoticed(s, n, g) || (g == f && a.startFails);
    assert forall g :: FinishUnnoticed(s, n + 1, g) <==>
      FinishUnnoticed(s, n, g) || (g == f && !a.startFails && a.finishFails);
    hide StartUnnoticed;
    hide FinishUnnoticed;
  }

  lemma ErrorsMeaning(s: Setup, errs: seq<Error>)
    requires s.Valid() && Unnoticed(s, |s.families|, errs)
    ensures forall f :: StartNotification(f) in errs <==> StartUnnoticed(s, |s.families|, f)
    ensures forall f :: FinishNotification(f) in errs <==> FinishUnnoticed(s, |s.families|, f)
    ensures FamilyFailed !in errs
  {
  }

  /** What each of the first families was given: the results of the successful families before it. */
  ghost predicate GivenEarlierResults(s: Setup, given: seq<seq<Result>>)
    requires s.Valid() && |given| <= |s.families|
  {
    forall i :: 0 <= i < |given| ==> given[i] == ResultsBefore(s, i)
  }

  lemma GiveNext(s: Setup, given: seq<seq<Result>>, results: seq<Result>)
    requires s.Valid() && |given| < |s.families| && GivenEarlierResults(s, given)
    requires results == ResultsBefore(s, |given|)
    ensures GivenEarlierResults(s, given + [results])
  {
  }

  lemma RunStarts(s: Setup)
    requires s.Valid()
    ensures ResultsBefore(s, 0) == [] && NotesUpTo(s, 0) == [] && AllWentWell(s, 0) && GivenEarlierResults(s, [])
  {
  }

  /** One turn of the loop: what it adds to results and notes, and whether it went well. */
  lemma RunTurn(s: Setup, i: nat)
    requires s.Valid() && i < |s.families|
    ensures var start := [Started(s.families[i])];
            if s.around[i].startFails then
              && ResultsBefore(s, i + 1) == ResultsBefore(s, i)
              && NotesUpTo(s, i + 1) == NotesUpTo(s, i) + start
              && !AllWentWell(s, i + 1)
            else
              var outcome := OutcomeOf(s, i, ResultsBefore(s, i));
              && ResultsBefore(s, i + 1) == ResultsBefore(s, i) + (if outcome.Succeeded? then [outcome.result] else [])
              && NotesUpTo(s, i + 1) == NotesUpTo(s, i) + start + [Finished(s.families[i], outcome)]
              && (AllWentWell(s, i + 1) <==> AllWentWell(s, i) && outcome.Succeeded? && !s.around[i].finishFails)
  {
    assert NotesUpTo(s, i + 1) == NotesUpTo(s, i) + NotesOf(s, i);
    assert AllWentWell(s, i + 1) <==> AllWentWell(s, i) && WentWell(s, i);
  }

  class Manager {
    var families: seq<FamilyType>

    constructor (config: set<FamilyType>)
      ensures families == Enabled(ORDER, config)
    {
      var fs := if SBOM in config then [SBOM] else [];
      fs := fs + (if Vulnerabilities in config then [Vulnerabilities] else []);
      fs := fs + (if Secrets in config then [Secrets] else []);
      fs := fs + (if Rootkits in config then [Rootkits] else []);
      fs := fs + (if Malware in config then [Malware] else []);
      fs := fs + (if Misconfiguration in config then [Misconfiguration] else []);
      fs := fs + (if InfoFinder in config then [InfoFinder] else []);
      fs := fs + (if Exploits in config then [Exploits] else []);
      families := fs;
      UnfoldOrder(config);
    }

    /** The select: the family's own result, unless the context ends first. */
    method RunFamily(s: Setup, i: nat, given: seq<Result>) returns (outcome: Outcome)
      requires s.Valid() && i < |s.families|
      ensures outcome == OutcomeOf(s, i, given)
    {
      if s.around[i].contextEnds {
        outcome := Aborted;
      } else {
        var r := s.run(s.families[i], given);
        outcome := if r.None? then Failed else Succeeded(r.value);
      }
    }

    /** Runs the families one after the other; `notes` is what the notifier was told, `given` what each family saw. */
    method Run(s: Setup) returns (errs: seq<Error>, notes: seq<Note>, ghost given: seq<seq<Result>>)
      requires s.Valid() && s.families == families
      ensures errs == [] <==> AllWentWell(s, |s.families|)
      ensures forall f :: StartNotification(f) in errs <==> StartUnnoticed(s, |s.families|, f)
      ensures forall f :: FinishNotification(f) in errs <==> FinishUnnoticed(s, |s.families|, f)
      ensures FamilyFailed in errs <==> SomeFailed(s, |s.families|)
      ensures notes == NotesUpTo(s, |s.families|)
      ensures |given| == |s.families| && GivenEarlierResults(s, given)
    {
      RunStarts(s);
      hide ResultsBefore;
      hide NotesUpTo;
      hide AllWentWell;
      hide OutcomeOf;
      hide GivenEarlierResults;
      assert Unnoticed(s, 0, []) && !SomeFailed(s, 0);
      hide Unnoticed;
      hide SomeFailed;
      hide Fails;
      errs, notes, given := [], [], [];
      var oneOrMoreFamilyFailed := false;
      var familyResults: seq<Result> := [];
      for i := 0 to |families|
        invariant families == s.families
        invariant familyResults == ResultsBefore(s, i) && notes == NotesUpTo(s, i)
        invariant (errs == [] && !oneOrMoreFamilyFailed) <==> AllWentWell(s, i)
        invariant |given| == i && GivenEarlierResults(s, given)
        invariant Unnoticed(s, i, errs) && (oneOrMoreFamilyFailed <==> SomeFailed(s, i))
      {
        ErrorsTurn(s, i, errs);
        RunTurn(s, i);
        GiveNext(s, given, familyResults);
        var f := families[i];
        given := given + [familyResults];
        notes := notes + [Started(f)];
        if s.around[i].startFails {
          errs := errs + [StartNotification(f)];
          continue;
        }
        var outcome := RunFamily(s, i, familyResults);
        if outcome.Succeeded? {
          familyResults := familyResults + [outcome.result];
        } else {
          oneOrMoreFamilyFailed := true;
        }
        notes := notes + [Finished(f, outcome)];
        if s.around[i].finishFails {
          errs := errs + [FinishNotification(f)];
        }
      }
      ErrorsMeaning(s, errs);
      if oneOrMoreFamilyFailed {
        errs := errs + [FamilyFailed];
      }
    }
  }

  lemma UnfoldOrder(config: set<FamilyType>)
    ensures Enabled(ORDER, config) ==
      (if SBOM in config then [SBOM] else []) + (if Vulnerabilities in config then [Vulnerabilities] else [])
      + (if Secrets in config then [Secrets] else []) + (if Rootkits in config then [Rootkits] else [])
      + (if Malware in config then [Malware] else []) + (if Misconfiguration in config then [Misconfiguration] else [])
      + (if InfoFinder in config then [InfoFinder] else []) + (if Exploits in config then [Exploits] else [])
  {
    assert ORDER[..7][..6] == ORDER[..6] && ORDER[..6][..5] == ORDER[..5] && ORDER[..5][..4] == ORDER[..4]
      && ORDER[..4][..3] == ORDER[..3] && ORDER[..3][..2] == ORDER[..2] && ORDER[..2][..1] == ORDER[..1]
        && ORDER[..1][..0] == [];
    assert Enabled(ORDER[..1], config) == if SBOM in config then [SBOM] else [];
    assert Enabled(ORDER[..3], config) == Enabled(ORDER[..2], config) + (if Secrets in config then [Secrets] else []);
    assert Enabled(ORDER[..5], config) == Enabled(ORDER[..4], config) + (if Malware in config then [Malware] else []);
    assert Enabled(ORDER[..7], config) ==
      Enabled(ORDER[..6], config) + (if InfoFinder in config then [InfoFinder] else []);
  }

  // ---------- One finish per started family ----------

  function FinishCount(notes: seq<Note>, f: FamilyType): nat {
    if notes == [] then 0
    else
      var n := |notes| - 1;
      FinishCount(notes[..n], f) + (if notes[n].Finished? && notes[n].f == f then 1 else 0)
  }

  lemma FinishCountOfFamily(s: Setup, i: nat, before: seq<Note>, f: FamilyType)
    requires s.Valid() && i < |s.families|
    ensures FinishCount(before + NotesOf(s, i), f) ==
      FinishCount(before, f) + (if f == s.families[i] && !s.around[i].startFails then 1 else 0)
  {
    var start := Started(s.families[i]);
    assert (before + [start])[..|before|] == before;
    if s.around[i].startFails {
      assert before + NotesOf(s, i) == before + [start];
    } else {
      var finish := Finished(s.families[i], OutcomeOf(s, i, ResultsBefore(s, i)));
      assert before + NotesOf(s, i) == (before + [start]) + [finish];
      assert ((before + [start]) + [finish])[..|before| + 1] == before + [start];
    }
  }

  /** Family f is among the first n and its start notification went through. */
  ghost predicate WasStarted(s: Setup, n: nat, f: FamilyType)
    requires s.Valid() && n <= |s.families|
  {
    exists i :: 0 <= i < n && s.families[i] == f && !s.around[i].startFails
  }

  predicate NotTwice(families: seq<FamilyType>) {
    forall i, j :: 0 <= i < j < |families| ==> families[i] != families[j]
  }

  lemma StartedNext(s: Setup, n: nat, f: FamilyType)
    requires s.Valid() && n < |s.families| && NotTwice(s.families)
    ensures var starts := s.families[n] == f && !s.around[n].startFails;
            (WasStarted(s, n + 1, f) <==> WasStarted(s, n, f) || starts) && !(WasStarted(s, n, f) && starts)
  {
  }

  /** When no family is listed twice, each gets exactly one finish if it was started and none otherwise. */
  lemma {:induction false} OneFinishPerStart(s: Setup, n: nat, f: FamilyType)
    requires s.Valid() && n <= |s.families| && NotTwice(s.families)
    ensures FinishCount(NotesUpTo(s, n), f) == if WasStarted(s, n, f) then 1 else 0
  {
    if n == 0 {
    } else {
      OneFinishPerStart(s, n - 1, f);
      FinishCountOfFamily(s, n - 1, NotesUpTo(s, n - 1), f);
      StartedNext(s, n - 1, f);
      hide FinishCount;
      hide NotesOf;
      hide WasStarted;
      hide NotTwice;
    }
  }

  // ---------- What the notifier is told, by position ----------

  /** The position of family i's start among the notifications. */
  function StartPosition(s: Setup, i: nat): nat
    requires s.Valid() && i <= |s.families|
  {
    if i == 0 then 0 else StartPosition(s, i - 1) + (if s.around[i - 1].startFails then 1 else 2)
  }

  /** At position p the notifier is told that family i starts, and next, if that went through, how it ended. */
  ghost predicate ToldAt(s: Setup, notes: seq<Note>, i: nat, p: nat)
    requires s.Valid() && i < |s.families|
  {
    && p < |notes| && notes[p] == Started(s.families[i])
    && (!s.around[i].startFails ==>
         && p + 1 < |notes|
         && notes[p + 1].Finished? && notes[p + 1].f == s.families[i]
         && EndsAs(s, i, notes[p + 1].outcome))
  }

  /** How family i ended: aborted, if the context ended first, or with what it made of the results before it. */
  ghost predicate EndsAs(s: Setup, i: nat, outcome: Outcome)
    requires s.Valid() && i < |s.families|
  {
    if s.around[i].contextEnds then outcome == Aborted
    else
      var r := s.run(s.families[i], ResultsBefore(s, i));
      if r.None? then outcome == Failed else outcome == Succeeded(r.value)
  }

  lemma ToldStill(s: Setup, before: seq<Note>, more: seq<Note>, i: nat, p: nat)
    requires s.Valid() && i < |s.families| && ToldAt(s, before, i, p)
    ensures ToldAt(s, before + more, i, p)
  {
    hide EndsAs;
  }

  lemma ToldLast(s: Setup, before: seq<Note>, i: nat)
    requires s.Valid() && i < |s.families|
    ensures ToldAt(s, before + NotesOf(s, i), i, |before|)
    ensures |NotesOf(s, i)| == if s.around[i].startFails then 1 else 2
  {
    hide ResultsBefore;
    if !s.around[i].startFails {
      assert (before + NotesOf(s, i))[|before| + 1] == Finished(s.families[i], OutcomeOf(s, i, ResultsBefore(s, i)));
    }
  }

  /** The notifications are these and no others, one family after the other. */
  lemma {:induction false} NotesMeaning(s: Setup, n: nat)
    requires s.Valid() && n <= |s.families|
    ensures |NotesUpTo(s, n)| == StartPosition(s, n)
    ensures forall i :: 0 <= i < n ==> ToldAt(s, NotesUpTo(s, n), i, StartPosition(s, i))
  {
    if n == 0 {
    } else {
      NotesMeaning(s, n - 1);
      var before := NotesUpTo(s, n - 1);
      assert NotesUpTo(s, n) == before + NotesOf(s, n - 1);
      ToldLast(s, before, n - 1);
      hide NotesOf;
      hide NotesUpTo;
      hide ToldAt;
      forall i | 0 <= i < n - 1
        ensures ToldAt(s, before + NotesOf(s, n - 1), i, StartPosition(s, i))
      {
        ToldStill(s, before, NotesOf(s, n - 1), i, StartPosition(s, i));
      }
    }
  }
}
