/** The notifier's process: the command line, the completion check, the
    poll loop and the global watch list with the log of notifications sent.
    HTTP responses arrive as a finite sequence, one per fetch; when it runs
    out before the process ends, the outcome is `Running`. */
module Notifier {
  import opened Text
  import opened Machines
  import opened Tracker

  /** How far the process got: still polling, or ended with an exit code. */
  datatype Outcome = Running | Exited(code: nat)

  /** An outcome together with the watch list and the notifications sent. */
  datatype Step = Step(outcome: Outcome, state: TrackState)

  /** What the command line asks for. */
  datatype Command = Usage | List | WatchFor(ids: seq<string>)

  const AllDone: string := "All Done"
  const SuccessExit: nat := 0
  const UsageExit: nat := 2

  /** The command line, program name first: exactly one argument is
      expected; `list` asks for the table; anything else is a
      comma-separated list of ids to watch. */
  function ParseArgs(argv: seq<string>): (c: Command)
    ensures c == Usage <==> |argv| != 2
    ensures c == List <==> |argv| == 2 && argv[1] == "list"
    ensures c.WatchFor? ==>
      && |argv| == 2 && argv[1] != "list"
      && c.ids == Split(argv[1], ',')
      && |c.ids| >= 1
      && (forall i :: 0 <= i < |c.ids| ==> ',' !in c.ids[i])
      && Join(c.ids, ',') == argv[1]
  {
    if |argv| != 2 then Usage
    else if argv[1] == "list" then List
    else WatchFor(Split(argv[1], ','))
  }

  /** The completion check after a pass: an empty watch list sends
      "All Done" and ends the process with exit code 0. */
  function Done(st: TrackState): (r: Step)
    ensures r.outcome == Exited(SuccessExit) <==> st.ids == []
    ensures r.outcome == Running <==> st.ids != []
    ensures r.state.ids == st.ids
    ensures r.state.notices == if st.ids == [] then st.notices + [AllDone] else st.notices
  {
    if st.ids != [] then Step(Running, st)
    else Step(Exited(SuccessExit), TrackState(st.ids, st.notices + [AllDone]))
  }

  /** One cycle of the poll loop: fetch, pass over the records, check for
      completion. A failed fetch ends the process before any record is
      looked at, so nothing changes and nothing is sent. */
  function Cycle(st: TrackState, resp: Response): (r: Step)
    ensures resp.status != 200 ==> r == Step(Exited(WrongStatusExit), st)
    ensures resp.status == 200 ==> r == Done(Track(st, NormalizeAll(resp.entries)))
  {
    match Fetch(resp)
    case Aborted(code) => Step(Exited(code), st)
    case Fetched(ms) => Done(Track(st, ms))
  }

  /** The poll loop over a finite sequence of responses. */
  function Loop(st: TrackState, polls: seq<Response>): Step
    decreases |polls|
  {
    if polls == [] then Step(Running, st)
    else
      var s := Cycle(st, polls[0]);
      if s.outcome.Exited? then s else Loop(s.state, polls[1..])
  }

  /** The loop only ever removes ids, never re-sends what was sent, and
      sends one notification per removed id plus one "All Done" if it ends
      with exit code 0. */
  lemma {:induction false} LoopAccounts(st: TrackState, polls: seq<Response>)
    ensures multiset(Loop(st, polls).state.ids) <= multiset(st.ids)
    ensures st.notices <= Loop(st, polls).state.notices
    ensures |Loop(st, polls).state.notices| - |st.notices|
         == |st.ids| - |Loop(st, polls).state.ids|
          + (if Loop(st, polls).outcome == Exited(SuccessExit) then 1 else 0)
    decreases |polls|
  {
    if polls != [] {
      var resp := polls[0];
      if resp.status == 200 {
        var passed := Track(st, NormalizeAll(resp.entries));
        TrackAccounts(st, NormalizeAll(resp.entries));
        var s := Done(passed);
        if s.outcome == Running {
          LoopAccounts(s.state, polls[1..]);
        }
      }
    }
  }

  /** The loop ends only with exit code 0, after "All Done" on an empty
      watch list, or with exit code 1; and while it is still running after
      at least one cycle, some id is still watched. */
  lemma {:induction false} LoopOutcome(st: TrackState, polls: seq<Response>)
    ensures Loop(st, polls).outcome in {Running, Exited(SuccessExit), Exited(WrongStatusExit)}
    ensures Loop(st, polls).outcome == Exited(SuccessExit) ==>
      && Loop(st, polls).state.ids == []
      && |Loop(st, polls).state.notices| > 0
      && Loop(st, polls).state.notices[|Loop(st, polls).state.notices| - 1] == AllDone
    ensures Loop(st, polls).outcome == Running && polls != [] ==> Loop(st, polls).state.ids != []
    decreases |polls|
  {
    if polls != [] {
      var s := Cycle(st, polls[0]);
      if s.outcome == Running && polls[1..] != [] {
        LoopOutcome(s.state, polls[1..]);
      } else if s.outcome == Running {
        assert Loop(st, polls) == Loop(s.state, []);
      }
    }
  }

  /** The last watched machine seen idle: one "finished" notification, then
      "All Done", and the process ends with exit code 0. */
  lemma LastMachineFinishes(e: RawEntry, id: string)
    requires e.unitName == IdPattern + id && !Occurs(id, IdPattern)
    requires e.machineColor
    ensures Loop(TrackState([id], []), [Response(200, [e])])
         == Step(Exited(SuccessExit), TrackState([], [FinishedMessage(Normalize(e)), AllDone]))
  {
    IdOfPrefixedName(id);
    var m := Normalize(e);
    assert NormalizeAll([e]) == [m];
    LoneIdFinishes(m);
  }

  /** `msg` is the finished message of a record that some 200 response
      among `polls` reported as no longer in use, with an id from `ids`. */
  ghost predicate NoticeFromPolls(polls: seq<Response>, ids: seq<string>, msg: string)
  {
    exists j, i ::
      && 0 <= j < |polls| && polls[j].status == 200 && 0 <= i < |polls[j].entries|
      && !Normalize(polls[j].entries[i]).inUse
      && Normalize(polls[j].entries[i]).id in ids
      && msg == FinishedMessage(Normalize(polls[j].entries[i]))
  }

  /** Every notification the loop sends is either the finished message of a
      record that one of its 200 responses reported idle, whose id was
      watched when the loop began, or the final "All Done" of a loop that
      ends with exit code 0. */
  lemma {:induction false} LoopNotices(st: TrackState, polls: seq<Response>, k: nat)
    requires |st.notices| <= k < |Loop(st, polls).state.notices|
    ensures
      || (&& Loop(st, polls).outcome == Exited(SuccessExit)
          && k == |Loop(st, polls).state.notices| - 1
          && Loop(st, polls).state.notices[k] == AllDone)
      || NoticeFromPolls(polls, st.ids, Loop(st, polls).state.notices[k])
    decreases |polls|
  {
    assert polls != [];
    var r := Loop(st, polls);
    var ms := NormalizeAll(polls[0].entries);
    assert polls[0].status == 200;
    var passed := Track(st, ms);
    TrackAccounts(st, ms);
    if k < |passed.notices| {
      TrackNoticesFromIdle(st, ms, k);
      var i :| 0 <= i < |ms| && !ms[i].inUse && ms[i].id in st.ids
               && passed.notices[k] == FinishedMessage(ms[i]);
      var d := Done(passed);
      if d.outcome == Running {
        LoopAccounts(d.state, polls[1..]);
      }
      assert r.state.notices[k] == passed.notices[k];
      assert ms[i] == Normalize(polls[0].entries[i]);
      assert NoticeFromPolls(polls, st.ids, r.state.notices[k]) by {
        assert 0 <= 0 < |polls| && polls[0].status == 200 && 0 <= i < |polls[0].entries|;
      }
    } else if passed.ids == [] {
      assert r == Step(Exited(SuccessExit), TrackState([], passed.notices + [AllDone]));
    } else {
      var rest := polls[1..];
      assert r == Loop(passed, rest);
      LoopNotices(passed, rest, k);
      if !(r.outcome == Exited(SuccessExit) && k == |r.state.notices| - 1 && r.state.notices[k] == AllDone) {
        var j, i :| 0 <= j < |rest| && rest[j].status == 200 && 0 <= i < |rest[j].entries|
                    && !Normalize(rest[j].entries[i]).inUse
                    && Normalize(rest[j].entries[i]).id in passed.ids
                    && r.state.notices[k] == FinishedMessage(Normalize(rest[j].entries[i]));
        StillWatched(Normalize(rest[j].entries[i]).id, passed.ids, st.ids);
        assert rest[j] == polls[j + 1];
        assert NoticeFromPolls(polls, st.ids, r.state.notices[k]) by {
          assert 0 <= j + 1 < |polls| && polls[j + 1].status == 200 && 0 <= i < |polls[j + 1].entries|;
        }
      }
    }
  }

  /** A poll loop that starts with nothing sent and ends with exit code 0
      has sent as many finished messages as there were watched ids, each for
      a record with a watched id that one of its 200 responses reported
      idle, and then "All Done". */
  lemma LoopCompletes(ids: seq<string>, polls: seq<Response>)
    requires Loop(TrackState(ids, []), polls).outcome == Exited(SuccessExit)
    ensures |Loop(TrackState(ids, []), polls).state.notices| == |ids| + 1
    ensures Loop(TrackState(ids, []), polls).state.notices[|ids|] == AllDone
    ensures forall k :: 0 <= k < |ids| ==>
      NoticeFromPolls(polls, ids, Loop(TrackState(ids, []), polls).state.notices[k])
  {
    var st := TrackState(ids, []);
    var r := Loop(st, polls);
    LoopAccounts(st, polls);
    LoopOutcome(st, polls);
    assert r.state.ids == [];
    assert |r.state.notices| == |ids| + 1;
    forall k | 0 <= k < |ids|
      ensures NoticeFromPolls(polls, ids, r.state.notices[k])
    {
      LoopNotices(st, polls, k);
    }
  }

  /** Watching 1, 2 and 3 with only 2 idle: one cycle removes 2, sends its
      finished message, and the loop keeps running for 1 and 3. */
  lemma OneOfThreeKeepsRunning(m1: Machine, m2: Machine, m3: Machine)
    requires m1.id == "1" && m2.id == "2" && m3.id == "3"
    requires m1.inUse && !m2.inUse && m3.inUse
    ensures Done(Track(TrackState(["1", "2", "3"], []), [m1, m2, m3]))
         == Step(Running, TrackState(["1", "3"], [FinishedMessage(m2)]))
  {
    OneOfThreeFinishes(m1, m2, m3);
  }

  /** The state of the process: the global watch list and the log of the
      notifications sent so far. A notification's title is always the same
      and is not logged. */
  class Monitor {
    var watchIds: seq<string>
    var sent: seq<string>

    /** Both start empty. */
    constructor ()
      ensures watchIds == [] && sent == []
    {
      watchIds := [];
      sent := [];
    }

    function State(): TrackState
      reads this
    {
      TrackState(watchIds, sent)
    }

    /** Decodes the command line; a list of ids to watch replaces the watch
        list, the other commands leave it alone. */
    method HandleArgs(argv: seq<string>) returns (cmd: Command)
      modifies this
      ensures cmd == ParseArgs(argv)
      ensures cmd.WatchFor? ==> watchIds == cmd.ids
      ensures !cmd.WatchFor? ==> watchIds == old(watchIds)
      ensures sent == old(sent)
    {
      if |argv| != 2 {
        cmd := Usage;
      } else if argv[1] == "list" {
        cmd := List;
      } else {
        watchIds := Split(argv[1], ',');
        cmd := WatchFor(watchIds);
      }
    }

    /** Fetches the machines and passes over them in order: each watched
        record no longer in use loses its id (the first occurrence) and
        sends one notification. A failed fetch ends the process with exit
        code 1 and changes nothing. */
    method Watch(resp: Response) returns (outcome: Outcome)
      modifies this
      ensures resp.status != 200 ==>
        outcome == Exited(WrongStatusExit) && watchIds == old(watchIds) && sent == old(sent)
      ensures resp.status == 200 ==>
        outcome == Running && State() == Track(old(State()), NormalizeAll(resp.entries))
    {
      var fetched := GetMachines(resp);
      if fetched.Aborted? {
        return Exited(fetched.code);
      }
      var machines := fetched.machines;
      for i := 0 to |machines|
        invariant State() == Track(old(State()), machines[..i])
      {
        var m := machines[i];
        if m.id in watchIds {
          if !m.inUse {
            var msg := FinishedMessage(m);
            watchIds := RemoveFirst(watchIds, m.id);
            sent := sent + [msg];
          }
        }
        assert machines[..i + 1][..i] == machines[..i];
      }
      assert machines[..|machines|] == machines;
      return Running;
    }

    /** Sends "All Done" and ends the process with exit code 0 once the
        watch list is empty; changes nothing otherwise. */
    method CheckDone() returns (outcome: Outcome)
      modifies this
      ensures outcome == Exited(SuccessExit) <==> old(watchIds) == []
      ensures outcome == Running <==> old(watchIds) != []
      ensures watchIds == old(watchIds)
      ensures sent == if old(watchIds) == [] then old(sent) + [AllDone] else old(sent)
    {
      if |watchIds| != 0 {
        return Running;
      }
      sent := sent + [AllDone];
      return Exited(SuccessExit);
    }

    /** Watch, then check for completion, once per response, until the
        process ends or the responses run out. */
    method MainLoop(polls: seq<Response>) returns (outcome: Outcome)
      modifies this
      ensures Step(outcome, State()) == Loop(old(State()), polls)
    {
      var i := 0;
      while i < |polls|
        invariant 0 <= i <= |polls|
        invariant Loop(State(), polls[i..]) == Loop(old(State()), polls)
      {
        ghost var before := State();
        outcome := Watch(polls[i]);
        if outcome.Exited? {
          return;
        }
        outcome := CheckDone();
        assert Step(outcome, State()) == Cycle(before, polls[i]);
        if outcome.Exited? {
          return;
        }
        assert polls[i..][1..] == polls[i + 1..];
        i := i + 1;
      }
      return Running;
    }
  }

  /** The whole run of the process on a command line and the responses its
      fetches receive, in order: the command line first, then one listing
      of the machines, then the poll loop. */
  function RunSpec(argv: seq<string>, responses: seq<Response>): Step
  {
    var initial := TrackState([], []);
    match ParseArgs(argv)
    case Usage => Step(Exited(UsageExit), initial)
    case List =>
      if responses == [] then Step(Running, initial)
      else if responses[0].status != 200 then Step(Exited(WrongStatusExit), initial)
      else Step(Exited(SuccessExit), initial)
    case WatchFor(ids) =>
      var st := TrackState(ids, []);
      if responses == [] then Step(Running, st)
      else if responses[0].status != 200 then Step(Exited(WrongStatusExit), st)
      else Loop(st, responses[1..])
  }

  /** A process that ends with exit code 0 while watching has sent as many
      finished messages as there were watched ids, each for a record with a
      watched id that a 200 response of the poll loop reported idle, and
      then "All Done"; without a watch list it sends nothing. */
  lemma RunNotices(argv: seq<string>, responses: seq<Response>)
    ensures !ParseArgs(argv).WatchFor? ==> RunSpec(argv, responses).state.notices == []
    ensures ParseArgs(argv).WatchFor? && RunSpec(argv, responses).outcome == Exited(SuccessExit) ==>
      && |RunSpec(argv, responses).state.notices| == |ParseArgs(argv).ids| + 1
      && RunSpec(argv, responses).state.notices[|ParseArgs(argv).ids|] == AllDone
      && forall k :: 0 <= k < |ParseArgs(argv).ids| ==>
           NoticeFromPolls(responses[1..], ParseArgs(argv).ids, RunSpec(argv, responses).state.notices[k])
  {
    var cmd := ParseArgs(argv);
    if cmd.WatchFor? && responses != [] && responses[0].status == 200 {
      var r := Loop(TrackState(cmd.ids, []), responses[1..]);
      assert RunSpec(argv, responses) == r;
      if r.outcome == Exited(SuccessExit) {
        LoopCompletes(cmd.ids, responses[1..]);
      }
    }
  }

  /** The process as the program runs it. */
  method Run(argv: seq<string>, responses: seq<Response>) returns (r: Step)
    ensures r == RunSpec(argv, responses)
    ensures |argv| != 2 ==> r == Step(Exited(UsageExit), TrackState([], []))
    ensures ParseArgs(argv) == List && responses != [] ==>
      && r.state == TrackState([], [])
      && r.outcome == if responses[0].status == 200 then Exited(SuccessExit) else Exited(WrongStatusExit)
  {
    var monitor := new Monitor();
    var cmd := monitor.HandleArgs(argv);
    if cmd == Usage {
      return Step(Exited(UsageExit), monitor.State());
    }
    if responses == [] {
      return Step(Running, monitor.State());
    }
    var listing := GetMachines(responses[0]);
    if listing.Aborted? {
      return Step(Exited(listing.code), monitor.State());
    }
    if cmd == List {
      return Step(Exited(SuccessExit), monitor.State());
    }
    var outcome := monitor.MainLoop(responses[1..]);
    return Step(outcome, monitor.State());
  }
}
