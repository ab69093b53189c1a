/** The copy scheduler (src/services/copy/file_sender.h): pending and in-flight files
    under a parallelism limit, posted runs, stopping, and the final report.  Every
    handler is one step; a posted RunFileSession that has not run yet is a token. */
module CopyScheduler {

  type File = string

  const SUCCESS: nat := 0
  const PARTIALLY_COPIED: nat := 203
  const NO_FILE_COPIED: nat := 204
  const COPY_STOPPED: nat := 206

  /** What on_copy_finished is called with. */
  datatype Finish = Finish(files: nat, errors: nat, code: nat)

  /** `outcomes` holds the error code each reported file ended with (0 for none). */
  datatype Sender = Sender(max: nat, listing: seq<File>, listed: bool,
                           pending: seq<File>, inFlight: seq<File>, stopped: bool, tokens: nat,
                           count: nat, errors: nat, outcomes: map<File, nat>, finishes: seq<Finish>)

  function Fresh(max: nat): Sender
  {
    Sender(max, [], false, [], [], false, 0, 0, 0, map[], [])
  }

  datatype Event =
    | List(files: seq<File>)
    | Fire
    | Report(file: File, code: nat)
    | StopBegins
    | StopDrains

  // ----------------------------------------------------------- the handlers

  /** std::list::remove. */
  function Remove(list: seq<File>, f: File): (r: seq<File>)
    ensures forall x :: x in r <==> x in list && x != f
    ensures |r| <= |list|
  {
    if list == [] then []
    else (if list[0] == f then [] else [list[0]]) + Remove(list[1..], f)
  }

  /** RunFileSession: starts one file if it may, and posts another run if files remain. */
  function RunSession(s: Sender): Sender
  {
    if s.stopped || s.pending == [] || |s.inFlight| >= s.max then s
    else s.(pending := s.pending[1..], inFlight := s.inFlight + [s.pending[0]],
            tokens := if |s.pending| > 1 then s.tokens + 1 else s.tokens)
  }

  /** The code NotifyFileCopied finishes with; `last` is the error of the last file. */
  function FinalCode(count: nat, errors: nat, last: nat): nat
  {
    if count == 1 then last
    else if errors == count then NO_FILE_COPIED
    else if errors > 0 then PARTIALLY_COPIED
    else SUCCESS
  }

  function Finished(s: Sender, code: nat): Sender
  {
    s.(finishes := s.finishes + [Finish(s.count, s.errors, code)])
  }

  /** The first half of NotifyFileCopied: the file leaves the in-flight list. */
  function Settle(s: Sender, file: File, code: nat): Sender
  {
    s.(inFlight := Remove(s.inFlight, file),
       errors := if code != 0 then s.errors + 1 else s.errors,
       outcomes := s.outcomes[file := code])
  }

  /** NotifyFileCopied for a file. */
  function Notify(s: Sender, file: File, code: nat): Sender
  {
    var t := Settle(s, file, code);
    var over := t.inFlight == [] && t.pending == [];
    var u := if t.stopped then t else RunSession(t);
    if over then Finished(u, FinalCode(u.count, u.errors, code)) else u
  }

  /** The loop of Stop. */
  function Drain(s: Sender): Sender
    decreases |s.pending|
  {
    if s.pending == [] || |s.inFlight| > s.max then s
    else
      var file := s.pending[0];
      Drain(Notify(s.(pending := s.pending[1..], inFlight := s.inFlight + [file]),
                   file, COPY_STOPPED))
  }

  /** Stop sets the flag, stops the sessions under way (whose reports are events of their
      own) and then empties the pending list.  A listing happens once.  A file is reported
      only while it is in flight: the session's own guard (copy_session.h) swallows every
      further stop of the same session. */
  function Step(s: Sender, e: Event): Sender
  {
    match e
    case List(files) =>
      if s.listed then s
      else
        var t := s.(listing := files, listed := true, pending := files, count := |files|);
        if files == [] then Finished(t, SUCCESS) else RunSession(t)
    case Fire => if s.tokens == 0 then s else RunSession(s.(tokens := s.tokens - 1))
    case Report(file, code) => if file in s.inFlight then Notify(s, file, code) else s
    case StopBegins => s.(stopped := true)
    case StopDrains => if s.stopped then Drain(s) else s
  }

  function Run(s: Sender, events: seq<Event>): Sender
  {
    if events == [] then s else Step(Run(s, events[..|events| - 1]), events[|events| - 1])
  }

  // ------------------------------------------------------------- invariants

  ghost predicate Distinct(list: seq<File>)
  {
    forall i, j :: 0 <= i < j < |list| ==> list[i] != list[j]
  }

  ghost function Files(list: seq<File>): set<File>
  {
    set f | f in list
  }

  ghost function Failed(outcomes: map<File, nat>): set<File>
  {
    set f | f in outcomes && outcomes[f] != 0
  }

  /** Pending, in-flight and reported files split the listing, each file in one part. */
  ghost predicate Partition(s: Sender)
  {
    && Distinct(s.listing) && Distinct(s.pending) && Distinct(s.inFlight)
    && Files(s.pending) !! Files(s.inFlight) && Files(s.pending) !! s.outcomes.Keys
    && Files(s.inFlight) !! s.outcomes.Keys
    && Files(s.listing) == Files(s.pending) + Files(s.inFlight) + s.outcomes.Keys
  }

  /** The report that a listing and its per-file outcomes call for: nothing else.  For a single
      file the code is its outcome; otherwise it tells whether all (204), some (203) or none
      (0) of the files failed. */
  ghost function Expected(listing: seq<File>, outcomes: map<File, nat>): Finish
    requires Files(listing) == outcomes.Keys
  {
    Finish(|listing|, |Failed(outcomes)|,
           if |listing| == 0 then 0
           else if |listing| == 1 then (assert listing[0] in Files(listing); outcomes[listing[0]])
           else if forall f :: f in outcomes ==> outcomes[f] != 0 then 204
           else if forall f :: f in outcomes ==> outcomes[f] == 0 then 0
           else 203)
  }

  ghost predicate AllReported(s: Sender)
  {
    s.listed && s.outcomes.Keys == Files(s.listing)
  }

  ghost predicate Counted(s: Sender)
  {
    s.count == |s.listing| && s.errors == |Failed(s.outcomes)|
  }

  ghost predicate Inv(s: Sender)
  {
    && Partition(s)
    && |s.inFlight| <= s.max
    && Counted(s)
    && (!s.listed ==> s.listing == [])
    && s.finishes == (if AllReported(s) then [Expected(s.listing, s.outcomes)] else [])
  }

  /** Work conservation: files wait only at the limit or with a run scheduled. */
  ghost predicate WorkConserving(s: Sender)
  {
    !s.stopped && s.pending != [] ==> |s.inFlight| >= s.max || s.tokens > 0
  }

  // ------------------------------------------------------------------- proofs

  lemma DistinctTail(list: seq<File>)
    requires Distinct(list) && list != []
    ensures Distinct(list[1..]) && list[0] !in list[1..]
    ensures Files(list) == {list[0]} + Files(list[1..])
  {
    var rest := list[1..];
    assert list == [list[0]] + rest;
    forall i | 0 <= i < |rest| ensures rest[i] == list[i + 1] && rest[i] != list[0] { }
  }

  lemma {:induction false} RemoveDistinct(list: seq<File>, f: File)
    requires Distinct(list)
    ensures Distinct(Remove(list, f))
    ensures f in list ==> |Remove(list, f)| == |list| - 1
    ensures f !in list ==> Remove(list, f) == list
  {
    if list != [] {
      DistinctTail(list);
      hide Distinct;
      var rest := Remove(list[1..], f);
      RemoveDistinct(list[1..], f);
      assert list == [list[0]] + list[1..];
      assert Remove(list, f) == (if list[0] == f then [] else [list[0]]) + rest;
      if list[0] == f {
        assert Remove(list, f) == rest;
      } else {
        DistinctCons(list[0], rest);
      }
    }
  }

  lemma DistinctCons(f: File, list: seq<File>)
    requires Distinct(list) && f !in list
    ensures Distinct([f] + list)
  {
  }

  lemma {:induction false} RemoveAppended(list: seq<File>, f: File)
    requires f !in list
    ensures Remove(list + [f], f) == list
  {
    if list == [] {
      assert list + [f] == [f];
    } else {
      assert (list + [f])[1..] == list[1..] + [f];
      RemoveAppended(list[1..], f);
    }
  }

  /** The first pending file put in flight. */
  function Move(s: Sender): Sender
    requires s.pending != []
  {
    s.(pending := s.pending[1..], inFlight := s.inFlight + [s.pending[0]])
  }

  lemma MovePartitions(s: Sender)
    requires Partition(s) && s.pending != []
    ensures Partition(Move(s)) && s.pending[0] !in s.inFlight && s.pending[0] in s.listing
  {
    var f, t := s.pending[0], Move(s);
    DistinctTail(s.pending);
    assert f in Files(s.pending) && f in Files(s.listing);
    assert Files(t.inFlight) == Files(s.inFlight) + {f};
  }

  lemma EmptyParts(s: Sender)
    requires Partition(s) && s.listed
    ensures AllReported(s) <==> s.pending == [] && s.inFlight == []
  {
    if s.inFlight != [] { assert s.inFlight[0] in Files(s.inFlight); }
    if s.pending != [] { assert s.pending[0] in Files(s.pending); }
  }

  /** Starting a file moves it from one part of the listing to the next. */
  lemma RunSessionKeepsInv(s: Sender)
    requires Inv(s) && (s.pending != [] ==> s.listed)
    ensures Inv(RunSession(s)) && WorkConserving(RunSession(s))
  {
    hide Partition, Expected, AllReported;
    var t := RunSession(s);
    if t != s {
      MovePartitions(s);
      assert Partition(t) by { SamePartition(Move(s), t); }
      EmptyParts(s);
      EmptyParts(t);
    }
  }

  lemma SamePartition(s: Sender, t: Sender)
    requires Partition(s) && t.listing == s.listing && t.pending == s.pending
    requires t.inFlight == s.inFlight && t.outcomes == s.outcomes
    ensures Partition(t)
  {
  }

  lemma RecordOutcome(outcomes: map<File, nat>, f: File, code: nat)
    requires f !in outcomes
    ensures |Failed(outcomes[f := code])| == |Failed(outcomes)| + (if code != 0 then 1 else 0)
  {
    var after := outcomes[f := code];
    if code != 0 {
      assert Failed(after) == Failed(outcomes) + {f};
    } else {
      assert Failed(after) == Failed(outcomes);
    }
  }

  lemma SettlePartitions(s: Sender, file: File, code: nat)
    requires Partition(s) && Counted(s) && file in s.inFlight
    ensures Partition(Settle(s, file, code)) && Counted(Settle(s, file, code))
    ensures file !in s.outcomes && |Remove(s.inFlight, file)| == |s.inFlight| - 1
  {
    var t := Settle(s, file, code);
    RemoveDistinct(s.inFlight, file);
    assert file in Files(s.inFlight);
    assert Files(t.inFlight) == Files(s.inFlight) - {file};
    assert t.outcomes.Keys == s.outcomes.Keys + {file};
    RecordOutcome(s.outcomes, file, code);
  }

  /** Counting the failures tells all, some and none apart. */
  lemma FailuresCount(listing: seq<File>, outcomes: map<File, nat>)
    requires Distinct(listing) && Files(listing) == outcomes.Keys
    ensures |Failed(outcomes)| == |listing| <==> forall f :: f in outcomes ==> outcomes[f] != 0
    ensures |Failed(outcomes)| == 0 <==> forall f :: f in outcomes ==> outcomes[f] == 0
  {
    var failed := Failed(outcomes);
    CardinalityOfFiles(listing);
    if |failed| == |listing| { WholeSubset(failed, outcomes.Keys); }
    if forall f :: f in outcomes ==> outcomes[f] != 0 { assert failed == outcomes.Keys; }
    if forall f :: f in outcomes ==> outcomes[f] == 0 { assert failed == {}; }
    if |failed| == 0 { assert failed == {}; }
    forall f | f in outcomes && outcomes[f] != 0 ensures f in failed { }
  }

  lemma WholeSubset(a: set<File>, b: set<File>)
    requires a <= b && |a| == |b|
    ensures a == b
  {
    if a != b {
      var x :| x in b && x !in a;
      SubsetSize(a, b - {x});
    }
  }

  /** With one file listed, the last file reported is that file. */
  lemma ExpectedMatches(s: Sender, file: File, code: nat)
    requires Counted(s) && file in s.outcomes && s.outcomes[file] == code
    requires AllReported(s) && Distinct(s.listing)
    ensures Expected(s.listing, s.outcomes) ==
            Finish(s.count, s.errors, FinalCode(s.count, s.errors, code))
  {
    assert file in Files(s.listing);
    FailuresCount(s.listing, s.outcomes);
  }

  lemma NotifyKeepsInv(s: Sender, file: File, code: nat)
    requires Partition(s) && file in s.inFlight && |s.inFlight| <= s.max + 1
    requires Counted(s) && s.listed && s.finishes == []
    ensures Inv(Notify(s, file, code)) && (!s.stopped ==> WorkConserving(Notify(s, file, code)))
  {
    hide Partition, Expected, AllReported, Counted, Remove;
    var t := Settle(s, file, code);
    SettlePartitions(s, file, code);
    EmptyParts(t);
    if t.inFlight == [] && t.pending == [] {
      assert Distinct(t.listing) by { ListingIsDistinct(t); }
      ExpectedMatches(t, file, code);
      var u := Notify(s, file, code);
      assert u == Finished(t, FinalCode(t.count, t.errors, code));
      FinishKeeps(t, u);
    } else {
      RunSessionKeepsInv(t);
    }
  }

  lemma ListingIsDistinct(s: Sender)
    requires Partition(s)
    ensures Distinct(s.listing)
  {
  }

  lemma FinishKeeps(t: Sender, u: Sender)
    requires u == t.(finishes := u.finishes)
    ensures Partition(t) ==> Partition(u)
    ensures Counted(t) ==> Counted(u)
    ensures AllReported(t) <==> AllReported(u)
  {
  }

  ghost function AllStopped(list: seq<File>): map<File, nat>
  {
    map f | f in list :: 206
  }

  lemma StoppedStep(outcomes: map<File, nat>, list: seq<File>)
    requires list != []
    ensures outcomes[list[0] := COPY_STOPPED] + AllStopped(list[1..]) == outcomes + AllStopped(list)
  {
    assert list == [list[0]] + list[1..];
  }

  /** Stop reports each pending file once, with the "copy stopped" error, and leaves the
      files in flight alone. */
  lemma {:induction false} DrainReportsPending(s: Sender)
    requires Inv(s) && s.stopped && (s.pending != [] ==> s.listed)
    ensures var t := Drain(s);
            && Inv(t) && t.pending == [] && t.inFlight == s.inFlight && t.stopped
            && t.errors == s.errors + |s.pending|
            && t.outcomes == s.outcomes + AllStopped(s.pending)
    decreases |s.pending|
  {
    if s.pending == [] {
      assert s.outcomes + AllStopped(s.pending) == s.outcomes;
    } else {
      hide Inv, Notify, AllStopped;
      NextDrained(s);
      var next := Notify(Move(s), s.pending[0], COPY_STOPPED);
      DrainReportsPending(next);
      StoppedStep(s.outcomes, s.pending);
    }
  }

  /** One round of the loop of Stop. */
  lemma NextDrained(s: Sender)
    requires Inv(s) && s.stopped && s.pending != [] && s.listed
    ensures |s.inFlight| <= s.max
    ensures var next := Notify(Move(s), s.pending[0], COPY_STOPPED);
            && Inv(next) && next.stopped && next.listed
            && next.pending == s.pending[1..] && next.inFlight == s.inFlight
            && next.errors == s.errors + 1
            && next.outcomes == s.outcomes[s.pending[0] := COPY_STOPPED]
  {
    hide Partition, Expected, AllReported, Counted, Notify;
    MovePartitions(s);
    EmptyParts(s);
    MoveCounts(s);
    NotifyKeepsInv(Move(s), s.pending[0], COPY_STOPPED);
    DrainedParts(s);
  }

  lemma MoveCounts(s: Sender)
    requires Counted(s) && s.pending != []
    ensures Counted(Move(s))
  {
  }

  lemma DrainedParts(s: Sender)
    requires s.stopped && s.pending != [] && s.pending[0] !in s.inFlight
    ensures var next := Notify(Move(s), s.pending[0], COPY_STOPPED);
            && next.stopped && next.listed == s.listed
            && next.pending == s.pending[1..] && next.inFlight == s.inFlight
            && next.errors == s.errors + 1
            && next.outcomes == s.outcomes[s.pending[0] := COPY_STOPPED]
  {
    hide Remove, RunSession, FinalCode;
    RemoveAppended(s.inFlight, s.pending[0]);
  }

  lemma ListKeepsInv(s: Sender, files: seq<File>)
    requires Inv(s) && !s.listed && Distinct(files)
    ensures var t := Step(s, List(files)); Inv(t) && WorkConserving(t) && t.listed
  {
    hide Remove, FinalCode;
    assert Files(s.listing) == {};
    assert s.outcomes == map[] by { assert s.outcomes.Keys == {}; }
    assert forall f :: f in s.inFlight ==> f in Files(s.inFlight);
    var t := s.(listing := files, listed := true, pending := files, count := |files|);
    if files == [] {
      assert Expected([], map[]) == Finish(0, 0, SUCCESS);
    } else {
      assert files[0] in Files(files);
      RunSessionKeepsInv(t);
    }
  }

  lemma InFlightIsListed(s: Sender, file: File)
    requires Inv(s) && file in s.inFlight
    ensures s.listed
  {
    assert file in Files(s.inFlight) && file in Files(s.listing);
  }

  lemma FlagsKeepInv(s: Sender, stopped: bool, tokens: nat)
    requires Inv(s)
    ensures Inv(s.(stopped := stopped, tokens := tokens))
  {
    SamePartition(s, s.(stopped := stopped, tokens := tokens));
  }

  lemma StepKeepsInv(s: Sender, e: Event)
    requires Inv(s) && WorkConserving(s) && (s.pending != [] ==> s.listed)
    requires e.List? ==> Distinct(e.files)
    ensures var t := Step(s, e);
            Inv(t) && WorkConserving(t) && (t.pending != [] ==> t.listed)
  {
    hide Partition, Expected, Counted, Remove, FinalCode;
    match e
    case List(files) => if !s.listed { ListKeepsInv(s, files); }
    case Fire =>
      if s.tokens > 0 {
        FlagsKeepInv(s, s.stopped, s.tokens - 1);
        RunSessionKeepsInv(s.(tokens := s.tokens - 1));
      }
    case Report(file, code) =>
      if file in s.inFlight {
        InFlightIsListed(s, file);
        EmptyParts(s);
        NotifyKeepsInv(s, file, code);
      }
    case StopBegins => FlagsKeepInv(s, true, s.tokens);
    case StopDrains => if s.stopped { DrainReportsPending(s); }
  }

  /** Copy scheduling and completion, in every run after a listing of distinct names,
      whatever the limit and the interleaving: the listing stays partitioned, in-flight
      files stay within the limit, work is conserved, and the finished callback has fired
      exactly once if every file is reported and not at all otherwise, with counts and code
      that are a function of the listing and the per-file outcomes. */
  lemma {:induction false} CopyTheorem(max: nat, events: seq<Event>)
    requires forall i :: 0 <= i < |events| && events[i].List? ==> Distinct(events[i].files)
    ensures var s := Run(Fresh(max), events);
            Inv(s) && WorkConserving(s) && (s.pending != [] ==> s.listed)
  {
    if events == [] {
      assert Files([]) == {} && Failed(map[]) == {};
    } else {
      CopyTheorem(max, events[..|events| - 1]);
      StepKeepsInv(Run(Fresh(max), events[..|events| - 1]), events[|events| - 1]);
    }
  }

  /** Files are taken from the front: what is pending is always the end of the listing. */
  ghost predicate TakenInOrder(s: Sender)
  {
    |s.pending| <= |s.listing| && s.pending == s.listing[|s.listing| - |s.pending|..]
  }

  lemma RunSessionTakesFirst(s: Sender)
    requires TakenInOrder(s)
    ensures TakenInOrder(RunSession(s)) && RunSession(s).listing == s.listing
    ensures var t := RunSession(s);
            t != s ==> t.pending == s.pending[1..] && t.inFlight == s.inFlight + [s.pending[0]]
  {
  }

  lemma NotifyTakesFirst(s: Sender, file: File, code: nat)
    requires TakenInOrder(s)
    ensures TakenInOrder(Notify(s, file, code)) && Notify(s, file, code).listing == s.listing
    ensures s.stopped ==> Notify(s, file, code).pending == s.pending
  {
    hide Remove, FinalCode, RunSession;
    RunSessionTakesFirst(Settle(s, file, code));
  }

  lemma {:induction false} DrainTakesFirst(s: Sender)
    requires TakenInOrder(s) && s.stopped
    ensures TakenInOrder(Drain(s))
    decreases |s.pending|
  {
    if !(s.pending == [] || |s.inFlight| > s.max) {
      hide Notify;
      NotifyTakesFirst(Move(s), s.pending[0], COPY_STOPPED);
      StaysStopped(Move(s), s.pending[0], COPY_STOPPED);
      DrainTakesFirst(Notify(Move(s), s.pending[0], COPY_STOPPED));
    }
  }

  lemma StaysStopped(s: Sender, file: File, code: nat)
    requires s.stopped
    ensures Notify(s, file, code).stopped
  {
  }

  /** In every run the files are started, or given up by a stop, in the order of the listing. */
  lemma {:induction false} FilesTakenInOrder(max: nat, events: seq<Event>)
    ensures TakenInOrder(Run(Fresh(max), events))
  {
    if events != [] {
      hide TakenInOrder, Step;
      FilesTakenInOrder(max, events[..|events| - 1]);
      StepTakesInOrder(Run(Fresh(max), events[..|events| - 1]), events[|events| - 1]);
    } else {
      assert TakenInOrder(Fresh(max));
    }
  }

  lemma StepTakesInOrder(s: Sender, e: Event)
    requires TakenInOrder(s)
    ensures TakenInOrder(Step(s, e))
  {
    hide Notify, Drain, RunSession, Remove, FinalCode;
    match e
    case List(files) =>
      var t := s.(listing := files, listed := true, pending := files, count := |files|);
      assert TakenInOrder(t);
      RunSessionTakesFirst(t);
    case Fire => if s.tokens > 0 { RunSessionTakesFirst(s.(tokens := s.tokens - 1)); }
    case Report(file, code) => NotifyTakesFirst(s, file, code);
    case StopBegins =>
    case StopDrains => if s.stopped { DrainTakesFirst(s); }
  }

  lemma {:induction false} CardinalityOfFiles(list: seq<File>)
    requires Distinct(list)
    ensures |Files(list)| == |list|
  {
    if list != [] {
      DistinctTail(list);
      CardinalityOfFiles(list[1..]);
    }
  }

  lemma SubsetSize(a: set<File>, b: set<File>)
    requires a <= b
    ensures |a| <= |b|
  {
    if a != {} {
      var x :| x in a;
      SubsetSize(a - {x}, b - {x});
    }
  }

  /** No report ever claims more errors than files. */
  lemma ErrorsWithinFiles(max: nat, events: seq<Event>)
    requires forall i :: 0 <= i < |events| && events[i].List? ==> Distinct(events[i].files)
    ensures var s := Run(Fresh(max), events);
            s.errors <= s.count && forall i :: 0 <= i < |s.finishes| ==>
                                     s.finishes[i].errors <= s.finishes[i].files
  {
    CopyTheorem(max, events);
    var s := Run(Fresh(max), events);
    SubsetSize(Failed(s.outcomes), Files(s.listing));
    CardinalityOfFiles(s.listing);
  }

  /** Two runs over the same listing that end with the same outcome per file report the
      same, whatever their limits and interleavings. */
  lemma ReportIgnoresSchedule(maxA: nat, a: seq<Event>, maxB: nat, b: seq<Event>)
    requires forall i :: 0 <= i < |a| && a[i].List? ==> Distinct(a[i].files)
    requires forall i :: 0 <= i < |b| && b[i].List? ==> Distinct(b[i].files)
    requires var s, t := Run(Fresh(maxA), a), Run(Fresh(maxB), b);
             s.listed == t.listed && s.listing == t.listing && s.outcomes == t.outcomes
    ensures Run(Fresh(maxA), a).finishes == Run(Fresh(maxB), b).finishes
  {
    CopyTheorem(maxA, a);
    CopyTheorem(maxB, b);
  }

  /** A scheduler at rest is done: with room for at least one copy, nothing in flight and no
      run scheduled, every listed file has been reported and the callback has fired. */
  lemma AtRestIsFinished(max: nat, events: seq<Event>)
    requires max > 0
    requires forall i :: 0 <= i < |events| && events[i].List? ==> Distinct(events[i].files)
    requires var s := Run(Fresh(max), events);
             s.listed && !s.stopped && s.inFlight == [] && s.tokens == 0
    ensures var s := Run(Fresh(max), events);
            AllReported(s) && s.finishes == [Expected(s.listing, s.outcomes)]
  {
    CopyTheorem(max, events);
    var s := Run(Fresh(max), events);
    assert s.max == max by { MaxIsConstant(max, events); }
    assert s.pending == [];
  }

  lemma {:induction false} DrainKeepsMax(s: Sender)
    ensures Drain(s).max == s.max
    decreases |s.pending|
  {
    if !(s.pending == [] || |s.inFlight| > s.max) {
      var f := s.pending[0];
      DrainKeepsMax(Notify(s.(pending := s.pending[1..], inFlight := s.inFlight + [f]), f, COPY_STOPPED));
    }
  }

  lemma {:induction false} MaxIsConstant(max: nat, events: seq<Event>)
    ensures Run(Fresh(max), events).max == max
  {
    if events != [] {
      MaxIsConstant(max, events[..|events| - 1]);
      var s := Run(Fresh(max), events[..|events| - 1]);
      if events[|events| - 1].StopDrains? { DrainKeepsMax(s); }
    }
  }

  // ------------------------------------------------------------ from the events

  /** The first listing of the run, if there is one. */
  function Listings(events: seq<Event>): seq<seq<File>>
  {
    if events == [] then []
    else
      var before, last := Listings(events[..|events| - 1]), events[|events| - 1];
      if before == [] && last.List? then [last.files] else before
  }

  lemma NotifyKeepsListing(s: Sender, file: File, code: nat)
    ensures Notify(s, file, code).listing == s.listing && Notify(s, file, code).listed == s.listed
  {
    hide Remove, FinalCode;
  }

  lemma {:induction false} DrainKeepsListing(s: Sender)
    ensures Drain(s).listing == s.listing && Drain(s).listed == s.listed
    decreases |s.pending|
  {
    if !(s.pending == [] || |s.inFlight| > s.max) {
      hide Notify;
      NotifyKeepsListing(Move(s), s.pending[0], COPY_STOPPED);
      DrainKeepsListing(Notify(Move(s), s.pending[0], COPY_STOPPED));
    }
  }

  /** The files copied are those of the first listing. */
  lemma {:induction false} ListingIsFirst(max: nat, events: seq<Event>)
    ensures var s, l := Run(Fresh(max), events), Listings(events);
            if l == [] then !s.listed else s.listed && s.listing == l[0]
    ensures |Listings(events)| <= 1
  {
    if events != [] {
      hide Notify, Drain;
      var s, e := Run(Fresh(max), events[..|events| - 1]), events[|events| - 1];
      ListingIsFirst(max, events[..|events| - 1]);
      if e.Report? { NotifyKeepsListing(s, e.file, e.code); }
      if e.StopDrains? { DrainKeepsListing(s); }
    }
  }

  lemma OneEvent(max: nat, events: seq<Event>, e: Event)
    ensures Run(Fresh(max), events + [e]) == Step(Run(Fresh(max), events), e)
  {
    hide Step;
    assert (events + [e])[..|events|] == events;
  }

  /** A scheduled run of a live sender with room starts the first pending file. */
  lemma RunStartsFirst(max: nat, events: seq<Event>)
    ensures var s, t := Run(Fresh(max), events), Run(Fresh(max), events + [Fire]);
            if s.tokens > 0 && !s.stopped && s.pending != [] && |s.inFlight| < s.max
            then t.pending == s.pending[1..] && t.inFlight == s.inFlight + [s.pending[0]]
            else t.pending == s.pending && t.inFlight == s.inFlight
  {
    OneEvent(max, events, Fire);
  }

  /** A report takes its file out of flight and records its outcome; a free place goes to the
      first pending file, unless the sender has been stopped. */
  lemma ReportOutcome(max: nat, events: seq<Event>, file: File, code: nat)
    requires forall i :: 0 <= i < |events| && events[i].List? ==> Distinct(events[i].files)
    requires file in Run(Fresh(max), events).inFlight
    ensures var s, t := Run(Fresh(max), events), Run(Fresh(max), events + [Report(file, code)]);
            && t.outcomes == s.outcomes[file := code] && file !in t.inFlight
            && (if s.stopped || s.pending == [] then t.pending == s.pending && |t.inFlight| == |s.inFlight| - 1
                else t.pending == s.pending[1..] && s.pending[0] in t.inFlight && |t.inFlight| == |s.inFlight|)
  {
    hide Expected, FinalCode, Run;
    var s := Run(Fresh(max), events);
    OneEvent(max, events, Report(file, code));
    CopyTheorem(max, events);
    RemoveDistinct(s.inFlight, file);
    assert file in Files(s.inFlight);
    if s.pending != [] { assert s.pending[0] in Files(s.pending); }
  }

  /** A stop turns every pending file into exactly one "copy stopped" error, in order, and leaves
      the files in flight to their sessions. */
  lemma StopOutcome(max: nat, events: seq<Event>)
    requires forall i :: 0 <= i < |events| && events[i].List? ==> Distinct(events[i].files)
    ensures var s, t := Run(Fresh(max), events), Run(Fresh(max), events + [StopBegins] + [StopDrains]);
            && t.stopped && t.pending == [] && t.inFlight == s.inFlight
            && t.errors == s.errors + |s.pending| && t.outcomes == s.outcomes + AllStopped(s.pending)
  {
    hide Inv, Drain, Run, AllStopped;
    var s := Run(Fresh(max), events);
    OneEvent(max, events, StopBegins);
    OneEvent(max, events + [StopBegins], StopDrains);
    CopyTheorem(max, events);
    FlagsKeepInv(s, true, s.tokens);
    DrainReportsPending(s.(stopped := true));
  }

  /** The work left: two for a pending file, one for a file in flight. */
  function Work(s: Sender): nat { 2 * |s.pending| + |s.inFlight| }

  /** Every start and every report uses up work, so a listing of n files takes at most 2n of
      them. */
  lemma WorkDecreases(s: Sender, file: File, code: nat)
    requires Partition(s)
    ensures RunSession(s) != s ==> Work(RunSession(s)) == Work(s) - 1
    ensures file in s.inFlight ==> Work(Step(s, Report(file, code))) < Work(s)
  {
    RemoveDistinct(s.inFlight, file);
  }

  // ------------------------------------------------------------ as an object

  class FileSender {
    const max: nat
    var listing: seq<File>
    var listed: bool
    var pendingInputFiles: seq<File>
    var inputFiles: seq<File>
    var stopped: bool
    var tokens: nat
    var inputFilesCount: nat
    var copyErrorsCount: nat
    var outcomes: map<File, nat>
    var finishes: seq<Finish>

    function View(): Sender
      reads this
    {
      Sender(max, listing, listed, pendingInputFiles, inputFiles, stopped, tokens,
             inputFilesCount, copyErrorsCount, outcomes, finishes)
    }

    constructor (maxParallelCopies: nat)
      ensures View() == Fresh(maxParallelCopies)
    {
      max := maxParallelCopies;
      listing, listed, pendingInputFiles, inputFiles := [], false, [], [];
      stopped, tokens, inputFilesCount, copyErrorsCount := false, 0, 0, 0;
      outcomes, finishes := map[], [];
    }

    /** RunFileSessions after ListInputFiles has succeeded with `files`. */
    method RunFileSessions(files: seq<File>)
      requires !listed
      modifies this
      ensures View() == Step(old(View()), List(files))
    {
      listing, listed := files, true;
      pendingInputFiles := files;
      inputFilesCount := |pendingInputFiles|;
      if pendingInputFiles == [] {
        NotifyCopyFinished(SUCCESS);
        return;
      }
      RunFileSession();
    }

    method RunFileSession()
      modifies this
      ensures View() == RunSession(old(View()))
    {
      if stopped || pendingInputFiles == [] || |inputFiles| >= max {
        return;
      }
      var file := pendingInputFiles[0];
      inputFiles := inputFiles + [file];
      pendingInputFiles := pendingInputFiles[1..];
      if !stopped && pendingInputFiles != [] {
        tokens := tokens + 1;
      }
    }

    /** A posted RunFileSession. */
    method RunPosted()
      requires tokens > 0
      modifies this
      ensures View() == Step(old(View()), Fire)
    {
      tokens := tokens - 1;
      RunFileSession();
    }

    method NotifyFileCopied(file: File, code: nat)
      modifies this
      ensures View() == Notify(old(View()), file, code)
    {
      inputFiles := Remove(inputFiles, file);
      outcomes := outcomes[file := code];
      if code != 0 {
        copyErrorsCount := copyErrorsCount + 1;
      }
      var isCopyFinished := inputFiles == [] && pendingInputFiles == [];
      if !stopped {
        RunFileSession();
      }
      if !isCopyFinished {
        return;
      }
      var finishedCode := SUCCESS;
      if inputFilesCount == 1 {
        finishedCode := code;
      } else if copyErrorsCount == inputFilesCount {
        finishedCode := NO_FILE_COPIED;
      } else if copyErrorsCount > 0 {
        finishedCode := PARTIALLY_COPIED;
      }
      NotifyCopyFinished(finishedCode);
    }

    method NotifyCopyFinished(code: nat)
      modifies this`finishes
      ensures View() == Finished(old(View()), code)
    {
      finishes := finishes + [Finish(inputFilesCount, copyErrorsCount, code)];
    }

    method BeginStop()
      modifies this`stopped
      ensures View() == Step(old(View()), StopBegins)
    {
      stopped := true;
    }

    /** The rest of Stop, once the sessions under way have been told to stop. */
    method DrainPending()
      requires stopped
      modifies this
      ensures View() == Step(old(View()), StopDrains)
    {
      ghost var start := View();
      while pendingInputFiles != []
        invariant Drain(View()) == Drain(start)
        decreases |pendingInputFiles|
      {
        if |inputFiles| > max {
          return;
        }
        ghost var s := View();
        var file := pendingInputFiles[0];
        inputFiles := inputFiles + [file];
        pendingInputFiles := pendingInputFiles[1..];
        assert View() == Move(s);
        NotifyFileCopied(file, COPY_STOPPED);
      }
    }
  }
}
