/**
 The session terminal of crates/pandar-bambu-source/src/tunnel.rs: a first-wins latch
 shared by the reader, the opener and the closers, between two resets, together with the
 sample accounting that reads it.

 `record_failure` loads `closing` and takes the terminal's lock in two separate steps, and
 logs in a third, so each of these is a step of its own here.
*/
module TunnelTerminal {
  import opened Basics
  import FrameReader

  datatype Terminal = Eof | Failure(error: string)

  // ----- The step system -----

  /** Where one `finish_failure` call stands. */
  datatype Pc = Checking | EndingAsEof | Committing | Logging | Finished

  /** `sawClosing` is what its load of `closing` returned; `won` says it set the terminal. */
  datatype Report = Report(error: string, pc: Pc, sawClosing: bool, won: bool)

  /** `logged` lists the reports whose error message was logged, in order. */
  datatype State = State(closing: bool, terminal: Option<Terminal>, reports: seq<Report>, logged: seq<nat>)

  /** The state `reset` leaves, with no report under way. */
  function AfterReset(): State {
    State(false, None, [], [])
  }

  datatype Action =
    | CloseBegins
    | FinishEof
    | FailureArises(error: string)
    | ChecksClosing(report: nat)
    | EndsAsEof(report: nat)
    | Commits(report: nat)
    | Logs(report: nat)

  /** `finish_eof`, and the locked part of `record_failure`: the first value stays. */
  function Latch(terminal: Option<Terminal>, value: Terminal): Option<Terminal> {
    if terminal.None? then Some(value) else terminal
  }

  predicate IsAt(s: State, i: nat, pc: Pc) {
    i < |s.reports| && s.reports[i].pc == pc
  }

  function SetReport(s: State, i: nat, r: Report): State
    requires i < |s.reports|
  {
    s.(reports := s.reports[i := r])
  }

  function Step(s: State, a: Action): Option<State> {
    match a
    case CloseBegins => Some(s.(closing := true))
    case FinishEof => Some(s.(terminal := Latch(s.terminal, Eof)))
    case FailureArises(error) => Some(s.(reports := s.reports + [Report(error, Checking, false, false)]))
    case ChecksClosing(i) =>
      if !IsAt(s, i, Checking) then None
      else
        var r := s.reports[i];
        Some(SetReport(s, i, r.(sawClosing := s.closing, pc := if s.closing then EndingAsEof else Committing)))
    case EndsAsEof(i) =>
      if !IsAt(s, i, EndingAsEof) then None
      else Some(SetReport(s, i, s.reports[i].(pc := Finished)).(terminal := Latch(s.terminal, Eof)))
    case Commits(i) =>
      if !IsAt(s, i, Committing) then None
      else
        var r := s.reports[i];
        if s.terminal.Some? then Some(SetReport(s, i, r.(pc := Finished)))
        else Some(SetReport(s, i, r.(pc := Logging, won := true)).(terminal := Latch(s.terminal, Failure(r.error))))
    case Logs(i) =>
      if !IsAt(s, i, Logging) then None
      else Some(SetReport(s, i, s.reports[i].(pc := Finished)).(logged := s.logged + [i]))
  }

  function RunFrom(start: State, actions: seq<Action>): Option<State> {
    if actions == [] then Some(start)
    else
      match RunFrom(start, actions[..|actions| - 1])
      case None => None
      case Some(s) => Step(s, actions[|actions| - 1])
  }

  function Run(actions: seq<Action>): Option<State> {
    RunFrom(AfterReset(), actions)
  }

  // ----- The invariant -----

  predicate Won(s: State, i: nat) {
    i < |s.reports| && s.reports[i].won
  }

  ghost predicate Inv(s: State) {
    // the terminal is a failure exactly when one report won, and it is that report's error
    && (forall i: nat | Won(s, i) :: s.terminal == Some(Failure(s.reports[i].error)))
    && (forall i: nat, j: nat | Won(s, i) && Won(s, j) :: i == j)
    && (s.terminal.Some? && s.terminal.value.Failure? ==> exists i: nat :: Won(s, i))
    // only a report that saw no close can win, and winning is what leads to the log
    && (forall i: nat | i < |s.reports| ::
          var r := s.reports[i];
          && (r.won ==> !r.sawClosing && (r.pc.Logging? || r.pc.Finished?))
          && (r.pc.Logging? ==> r.won)
          && (r.pc.Committing? ==> !r.sawClosing)
          && (r.sawClosing ==> s.closing))
    // the log holds the winner, once, as soon as it has logged
    && (s.logged != [] ==> |s.logged| == 1 && Won(s, s.logged[0]) && s.reports[s.logged[0]].pc.Finished?)
    && (forall i: nat | Won(s, i) && s.reports[i].pc.Finished? :: s.logged == [i])
  }

  lemma CommitKeeps(s: State, i: nat)
    requires Inv(s) && IsAt(s, i, Committing)
    ensures Inv(Step(s, Commits(i)).value)
  {
    var t := Step(s, Commits(i)).value;
    if s.terminal.None? {
      assert forall j: nat :: !Won(s, j);
      assert forall j: nat :: Won(t, j) <==> j == i;
      assert Won(t, i);
    } else {
      assert forall j: nat :: Won(t, j) <==> Won(s, j);
    }
    if s.terminal.Some? && s.terminal.value.Failure? {
      var w: nat :| Won(s, w);
      assert Won(t, w);
    }
  }

  lemma LogKeeps(s: State, i: nat)
    requires Inv(s) && IsAt(s, i, Logging)
    ensures Inv(Step(s, Logs(i)).value)
  {
    var t := Step(s, Logs(i)).value;
    assert Won(s, i);
    assert forall j: nat :: Won(t, j) <==> Won(s, j);
    assert s.logged == [];
  }

  lemma StepKeeps(s: State, a: Action)
    requires Inv(s) && Step(s, a).Some?
    ensures Inv(Step(s, a).value)
  {
    var t := Step(s, a).value;
    match a
    case Commits(i) => CommitKeeps(s, i);
    case Logs(i) => LogKeeps(s, i);
    case _ =>
      assert forall i: nat :: Won(s, i) <==> Won(t, i);
      if s.terminal.Some? && s.terminal.value.Failure? {
        var w: nat :| Won(s, w);
        assert Won(t, w);
      }
  }

  lemma {:induction false} RunKeeps(actions: seq<Action>)
    requires Run(actions).Some?
    ensures Inv(Run(actions).value)
  {
    if actions != [] {
      RunKeeps(actions[..|actions| - 1]);
      StepKeeps(Run(actions[..|actions| - 1]).value, actions[|actions| - 1]);
    }
  }

  // ----- Theorems -----

  lemma {:induction false} SetTerminalStays(s: State, actions: seq<Action>)
    requires s.terminal.Some? && RunFrom(s, actions).Some?
    ensures RunFrom(s, actions).value.terminal == s.terminal
  {
    if actions != [] {
      SetTerminalStays(s, actions[..|actions| - 1]);
    }
  }

  lemma {:induction false} RunContinues(s: State, actions: seq<Action>, more: seq<Action>)
    requires RunFrom(s, actions + more).Some?
    ensures RunFrom(s, actions).Some?
    ensures RunFrom(RunFrom(s, actions).value, more) == RunFrom(s, actions + more)
    decreases |more|
  {
    if more == [] {
      assert actions + more == actions;
    } else {
      assert (actions + more)[..|actions + more| - 1] == actions + more[..|more| - 1];
      RunContinues(s, actions, more[..|more| - 1]);
    }
  }

  /** Once set, the terminal never changes again, in any interleaving. */
  lemma TerminalIsFinal(actions: seq<Action>, more: seq<Action>)
    requires Run(actions).Some? && Run(actions).value.terminal.Some?
    requires Run(actions + more).Some?
    ensures Run(actions + more).value.terminal == Run(actions).value.terminal
  {
    RunContinues(AfterReset(), actions, more);
    SetTerminalStays(Run(actions).value, more);
  }

  lemma {:induction false} ClosingSince(actions: seq<Action>, p: nat)
    requires Run(actions).Some? && p < |actions| && actions[p] == CloseBegins
    ensures Run(actions).value.closing
  {
    if p < |actions| - 1 {
      ClosingSince(actions[..|actions| - 1], p);
    }
  }

  lemma {:induction false} SawClosingSince(actions: seq<Action>, p: nat, q: nat, i: nat)
    requires Run(actions).Some? && p < q < |actions|
    requires actions[p] == CloseBegins && actions[q] == ChecksClosing(i)
    ensures var s := Run(actions).value;
            i < |s.reports| && s.reports[i].sawClosing && !s.reports[i].pc.Checking?
  {
    var before := actions[..|actions| - 1];
    if q == |actions| - 1 {
      ClosingSince(before, p);
    } else {
      SawClosingSince(before, p, q, i);
    }
  }

  /**
   A failure whose check ran after a close began neither becomes the terminal nor is logged;
   if the terminal is a failure at all, it is that of a report whose check saw no close.
  */
  lemma LateFailureNeverWins(actions: seq<Action>, p: nat, q: nat, i: nat)
    requires Run(actions).Some? && p < q < |actions|
    requires actions[p] == CloseBegins && actions[q] == ChecksClosing(i)
    ensures var s := Run(actions).value;
            && i < |s.reports| && !s.reports[i].won && i !in s.logged
            && (s.terminal.Some? && s.terminal.value.Failure? ==>
                  exists w: nat | w < |s.reports| && w != i ::
                    s.reports[w].won && !s.reports[w].sawClosing && s.terminal == Some(Failure(s.reports[w].error)))
  {
    RunKeeps(actions);
    SawClosingSince(actions, p, q, i);
    var s := Run(actions).value;
    assert !Won(s, i);
    if s.terminal.Some? && s.terminal.value.Failure? {
      var w: nat :| Won(s, w);
      assert w < |s.reports| && w != i;
    }
  }

  /**
   The log fires at most once, and only for the failure that is the terminal; once every
   report has finished it has fired exactly when the terminal is a failure.
  */
  lemma LoggedExactlyOnce(actions: seq<Action>)
    requires Run(actions).Some?
    ensures var s := Run(actions).value;
            && |s.logged| <= 1
            && (s.logged != [] ==>
                  s.logged[0] < |s.reports| && s.terminal == Some(Failure(s.reports[s.logged[0]].error)))
            && ((forall i | 0 <= i < |s.reports| :: s.reports[i].pc.Finished?) ==>
                  (|s.logged| == 1 <==> s.terminal.Some? && s.terminal.value.Failure?))
  {
    RunKeeps(actions);
    var s := Run(actions).value;
    if s.terminal.Some? && s.terminal.value.Failure? && forall i | 0 <= i < |s.reports| :: s.reports[i].pc.Finished? {
      var w: nat :| Won(s, w);
      assert s.logged == [w];
    }
  }

  /** Ending a session always leaves a terminal: Eof, unless one was set before. */
  lemma FinishEofEnds(actions: seq<Action>, more: seq<Action>)
    requires Run(actions).Some? && Run(actions + [FinishEof] + more).Some?
    ensures Run(actions + [FinishEof] + more).value.terminal ==
            if Run(actions).value.terminal.Some? then Run(actions).value.terminal else Some(Eof)
  {
    RunContinues(AfterReset(), actions + [FinishEof], more);
    assert (actions + [FinishEof])[..|actions + [FinishEof]| - 1] == actions;
    SetTerminalStays(Run(actions + [FinishEof]).value, more);
  }

  /** The reports of a run are those of the failures that arose, in order. */
  function Arisen(actions: seq<Action>): seq<string> {
    if actions == [] then []
    else Arisen(actions[..|actions| - 1])
         + if actions[|actions| - 1].FailureArises? then [actions[|actions| - 1].error] else []
  }

  lemma {:induction false} ReportsAreFailures(actions: seq<Action>)
    requires Run(actions).Some?
    ensures |Run(actions).value.reports| == |Arisen(actions)|
    ensures forall i | 0 <= i < |Arisen(actions)| :: Run(actions).value.reports[i].error == Arisen(actions)[i]
  {
    if actions != [] {
      ReportsAreFailures(actions[..|actions| - 1]);
    }
  }

  /** A terminal that is a failure is one that arose. */
  lemma FailureAroseFirst(actions: seq<Action>, error: string)
    requires Run(actions).Some? && Run(actions).value.terminal == Some(Failure(error))
    ensures error in Arisen(actions)
  {
    RunKeeps(actions);
    ReportsAreFailures(actions);
    var w: nat :| Won(Run(actions).value, w);
    assert Arisen(actions)[w] == error;
  }

  /** Nobody closes or ends the session: a report is past its commit only once a failure is the terminal. */
  ghost predicate Unopposed(s: State) {
    && !s.closing && (s.terminal.Some? ==> s.terminal.value.Failure?)
    && forall i | 0 <= i < |s.reports| ::
         && !s.reports[i].pc.EndingAsEof?
         && (s.reports[i].pc.Finished? || s.reports[i].pc.Logging? ==> s.terminal.Some?)
  }

  lemma {:induction false} StaysUnopposed(actions: seq<Action>)
    requires Run(actions).Some? && CloseBegins !in actions && FinishEof !in actions
    ensures Unopposed(Run(actions).value)
  {
    if actions != [] {
      var before := actions[..|actions| - 1];
      StaysUnopposed(before);
      assert actions[|actions| - 1] in actions;
    }
  }

  /** Without a close and an end of the stream, a finished report means that a failure is the terminal. */
  lemma UnopposedFailureWins(actions: seq<Action>, i: nat)
    requires Run(actions).Some? && CloseBegins !in actions && FinishEof !in actions
    requires i < |Run(actions).value.reports| && Run(actions).value.reports[i].pc.Finished?
    ensures exists error :: Run(actions).value.terminal == Some(Failure(error)) && error in Arisen(actions)
  {
    StaysUnopposed(actions);
    FailureAroseFirst(actions, Run(actions).value.terminal.value.error);
  }

  /** A report that is not finished can always take its next step, and a session can always be ended. */
  lemma ReportsGoOn(s: State, i: nat)
    requires i < |s.reports|
    ensures Step(s, ChecksClosing(i)).Some? <==> s.reports[i].pc == Checking
    ensures Step(s, EndsAsEof(i)).Some? <==> s.reports[i].pc == EndingAsEof
    ensures Step(s, Commits(i)).Some? <==> s.reports[i].pc == Committing
    ensures Step(s, Logs(i)).Some? <==> s.reports[i].pc == Logging
    ensures Step(s, CloseBegins).Some? && Step(s, FinishEof).Some?
    ensures forall error :: Step(s, FailureArises(error)).Some?
  {
  }

  // ----- The shared object -----

  const BAMBU_SUCCESS := 0
  const BAMBU_STREAM_END := 1
  const BAMBU_WOULD_BLOCK := 2
  const BAMBU_INVALID := -2

  /** What a terminal means to the caller; none at all reads as an ended stream. */
  function TerminalCodeOf(terminal: Option<Terminal>): (code: int)
    ensures code == -2 <==> exists error :: terminal == Some(Failure(error))
    ensures code == 1 <==> terminal == None || terminal == Some(Eof)
  {
    if terminal.Some? && terminal.value.Failure? then BAMBU_INVALID else BAMBU_STREAM_END
  }

  /** Whether an action belongs to the given `finish_failure` call. */
  predicate IsStepOf(a: Action, i: nat) {
    a == ChecksClosing(i) || a == EndsAsEof(i) || a == Commits(i) || a == Logs(i)
  }

  /** Other threads than that of report `i` take `s` to `mid`. */
  ghost predicate OthersLead(s: State, i: nat, others: seq<Action>, mid: State) {
    && RunFrom(s, others) == Some(mid)
    && (forall k | 0 <= k < |others| :: !IsStepOf(others[k], i))
  }

  lemma {:induction false} OthersLeaveReport(s: State, i: nat, others: seq<Action>, mid: State)
    requires OthersLead(s, i, others, mid) && i < |s.reports|
    ensures i < |mid.reports| && mid.reports[i] == s.reports[i]
  {
    if others != [] {
      var before := others[..|others| - 1];
      OthersLeaveReport(s, i, before, RunFrom(s, before).value);
      assert !IsStepOf(others[|others| - 1], i);
    }
  }

  /** The last step of report `i` in `record_failure`, after its check. */
  function SecondStep(s: State, i: nat): Option<State> {
    if IsAt(s, i, EndingAsEof) then Step(s, EndsAsEof(i)) else Step(s, Commits(i))
  }

  class Shared {
    var closing: bool
    var terminal: Option<Terminal>
    var dimensions: Option<(int, int)>

    constructor ()
      ensures !closing && terminal == None && dimensions == None
    {
      closing, terminal, dimensions := false, None, None;
    }

    /** `reset`: the state every run above starts from. */
    method Reset()
      modifies this
      ensures dimensions == None && closing == AfterReset().closing && terminal == AfterReset().terminal
    {
      closing, terminal, dimensions := false, None, None;
    }

    method FinishEof()
      modifies `terminal
      ensures terminal == Latch(old(terminal), Eof)
    {
      if terminal.None? {
        terminal := Some(Eof);
      }
    }

    /** The fields as a state of the step system has them. */
    ghost predicate Shows(s: State)
      reads this
    {
      closing == s.closing && terminal == s.terminal
    }

    /** Other threads run, up to the state `mid`. */
    method OthersRun(mid: State)
      modifies `terminal, `closing
      ensures Shows(mid)
    {
      closing, terminal := mid.closing, mid.terminal;
    }

    /**
     `record_failure` for report `i`: its check in state `s`, then any steps of other threads
     up to `mid`, then its second step. It wins exactly when it saw no close and nothing else
     set the terminal first.
    */
    method RecordFailure(ghost s: State, ghost i: nat, error: string, ghost others: seq<Action>, mid: State)
      returns (won: bool)
      requires Shows(s) && IsAt(s, i, Checking) && s.reports[i].error == error && !s.reports[i].won
      requires OthersLead(Step(s, ChecksClosing(i)).value, i, others, mid)
      modifies `terminal, `closing
      ensures SecondStep(mid, i).Some? && Shows(SecondStep(mid, i).value)
      ensures won <==> Won(SecondStep(mid, i).value, i)
      ensures won <==> !old(closing) && mid.terminal.None?
      ensures terminal == Latch(mid.terminal, if old(closing) then Eof else Failure(error))
      ensures old(terminal).Some? ==> !won && terminal == old(terminal)
    {
      ghost var checked := Step(s, ChecksClosing(i)).value;
      OthersLeaveReport(checked, i, others, mid);
      if s.terminal.Some? {
        SetTerminalStays(checked, others);
      }
      if closing {
        OthersRun(mid);
        FinishEof();
        return false;
      }
      OthersRun(mid);
      if terminal.Some? {
        return false;
      }
      terminal := Some(Failure(error));
      return true;
    }

    method TerminalCode() returns (code: int)
      ensures code == TerminalCodeOf(terminal)
    {
      code := if terminal.Some? && terminal.value.Failure? then BAMBU_INVALID else BAMBU_STREAM_END;
    }

    /** `pending_code`: two lock sections, yet never an answer about a terminal that is not final. */
    method PendingCode(ghost s: State, ghost others: seq<Action>, mid: State) returns (code: int)
      requires Shows(s) && RunFrom(s, others) == Some(mid)
      modifies `terminal, `closing
      ensures code == 2 <==> old(terminal).None?
      ensures code != 2 ==> Shows(mid) && code == TerminalCodeOf(old(terminal))
      ensures terminal == old(terminal)
    {
      if terminal.None? {
        return BAMBU_WOULD_BLOCK;
      }
      SetTerminalStays(s, others);
      OthersRun(mid);
      code := TerminalCode();
    }
  }

  // ----- Samples -----

  /** What `try_read` finds: nothing at all unless a session is running. */
  datatype Polled = NoSession | GotFrame(frame: FrameReader.Frame) | QueueEmpty | QueueClosed

  function TotalBytes(frames: seq<FrameReader.Frame>): nat {
    if frames == [] then 0 else TotalBytes(frames[..|frames| - 1]) + |frames[|frames| - 1]|
  }

  class Samples {
    const shared: Shared
    var current: FrameReader.Frame
    var deliveredFrames: nat
    var deliveredBytes: nat
    ghost var delivered: seq<FrameReader.Frame>

    ghost predicate Valid()
      reads this
    {
      deliveredFrames == |delivered| && deliveredBytes == TotalBytes(delivered)
    }

    constructor (shared: Shared)
      ensures Valid() && this.shared == shared && delivered == []
    {
      this.shared := shared;
      current, deliveredFrames, deliveredBytes := [], 0, 0;
      delivered := [];
    }

    /**
     `read_sample`: a frame the reader offered always fits, so it is delivered whole and
     counted; an empty queue answers with the pending code and a closed one with the
     terminal's. Other threads may lead from `s` to `mid` while the pending code is read.
    */
    method ReadSample(polled: Polled, ghost s: State, ghost others: seq<Action>, mid: State)
      returns (code: int, size: int)
      requires Valid()
      requires shared.Shows(s) && RunFrom(s, others) == Some(mid)
      requires polled.GotFrame? ==> FrameReader.ValidFrame(polled.frame)
      modifies this`current, this`deliveredFrames, this`deliveredBytes, this`delivered
      modifies shared`terminal, shared`closing
      ensures Valid()
      ensures polled.GotFrame? ==>
                && code == 0 && size == |polled.frame| && 0 < size < 0x8000_0000
                && current == polled.frame && delivered == old(delivered) + [polled.frame]
      ensures !polled.GotFrame? ==> delivered == old(delivered) && current == old(current) && code != 0
      ensures polled.QueueClosed? ==> code == TerminalCodeOf(old(shared.terminal))
      ensures polled.QueueEmpty? ==>
                code == if old(shared.terminal).None? then 2 else TerminalCodeOf(old(shared.terminal))
      ensures polled.NoSession? ==> code == -2
      ensures shared.terminal == old(shared.terminal)
    {
      size := 0;
      match polled
      case NoSession =>
        code := BAMBU_INVALID;
      case GotFrame(frame) =>
        current := frame;
        if |current| >= 0x8000_0000 {
          return BAMBU_INVALID, 0;
        }
        size := |current|;
        deliveredFrames := deliveredFrames + 1;
        deliveredBytes := deliveredBytes + |current|;
        delivered := delivered + [frame];
        assert delivered[..|delivered| - 1] == old(delivered);
        code := BAMBU_SUCCESS;
      case QueueEmpty =>
        code := shared.PendingCode(s, others, mid);
      case QueueClosed =>
        code := shared.TerminalCode();
    }
  }
}
