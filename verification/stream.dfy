/** The stateful part of `LogStream`: the per-line dispatcher `logMsg`, the disabled
    `logState`, the `isOpened` probe and the pause toggle. The calls the stream makes on
    its diagnostic object and its output channel are recorded, in order, as effects. */
module Stream {
  import opened Wrappers
  import opened Patterns
  import opened Interpreter

  /** A call on a collaborator. */
  datatype Effect =
    | AddLogStreamError(err: ErrorRecord)   // diagnostic.addLogStreamError(err)
    | ClearDiagnostic                        // diagnostic.clearDiagnostic()
    | AppendLine(text: string)               // outputChannel.appendLine(text)

  /** The calls one unpaused `logMsg(message)` makes, and whether it then returns
      normally (`completed`) or throws. */
  datatype Dispatch = Dispatch(effects: seq<Effect>, completed: bool)

  /** What an unpaused `logMsg(message)` does, given whether the output channel exists. */
  function LineDispatch(env: Env, ts: string, message: string, hasChannel: bool): (d: Dispatch)
    ensures GetErrorMessage(env, message).Thrown? ==> d == Dispatch([], false)
    ensures d.completed <==>
      hasChannel && GetErrorMessage(env, message).Normal? && GetLogStreamLogMessage(env, ts, message).Normal?
  {
    var err, line := GetErrorMessage(env, message), GetLogStreamLogMessage(env, ts, message);
    DispatchOf(err, ReloadMatches(message), hasChannel, line)
  }

  /** The calls of one unpaused line, from the outcome of `getErrorMessage`, the reload
      test, whether the channel exists and the outcome of `getLogStreamLogMessage` (which
      is only reached when the first three let it). */
  function DispatchOf(err: Completion<Option<ErrorRecord>>, reload: bool, hasChannel: bool,
                      line: Completion<string>): (d: Dispatch)
    ensures err.Thrown? ==> d == Dispatch([], false)
    ensures d.completed <==> hasChannel && err.Normal? && line.Normal?
    ensures d.completed ==> |d.effects| >= 1 && d.effects[|d.effects| - 1] == AppendLine(line.value)
  {
    match err
    case Thrown => Dispatch([], false)
    case Normal(e) =>
      var reported := if e.Some? then [AddLogStreamError(e.value)] else [];
      var cleared := reported + (if reload then [ClearDiagnostic] else []);
      if !hasChannel then Dispatch(cleared, false)
      else
        match line
        case Thrown => Dispatch(cleared, false)
        case Normal(text) => Dispatch(cleared + [AppendLine(text)], true)
  }

  /** The position of each kind of call in a dispatch. */
  function Rank(e: Effect): nat {
    match e
    case AddLogStreamError(_) => 0
    case ClearDiagnostic => 1
    case AppendLine(_) => 2
  }

  /** A line causes at most one call of each kind, and they come in the order: error
      report, diagnostics reset, output. */
  lemma DispatchOrder(err: Completion<Option<ErrorRecord>>, reload: bool, hasChannel: bool, line: Completion<string>)
    ensures var d := DispatchOf(err, reload, hasChannel, line);
      forall i, j :: 0 <= i < j < |d.effects| ==> Rank(d.effects[i]) < Rank(d.effects[j])
  {
  }

  /** An error is reported exactly when `getErrorMessage` returns a record, and it is that
      record. */
  lemma DispatchReportsError(err: Completion<Option<ErrorRecord>>, reload: bool, hasChannel: bool,
                             line: Completion<string>, e: ErrorRecord)
    ensures AddLogStreamError(e) in DispatchOf(err, reload, hasChannel, line).effects <==> err == Normal(Some(e))
  {
  }

  /** The diagnostics are reset exactly when the line is a reload line, whether or not it
      also reports an error; only a throw from `getErrorMessage` prevents it. */
  lemma DispatchClears(err: Completion<Option<ErrorRecord>>, reload: bool, hasChannel: bool, line: Completion<string>)
    ensures ClearDiagnostic in DispatchOf(err, reload, hasChannel, line).effects <==> err.Normal? && reload
  {
  }

  /** The line is output, as the last call, exactly when nothing threw and the channel
      exists; it is output as `getLogStreamLogMessage` renders it. */
  lemma DispatchAppends(err: Completion<Option<ErrorRecord>>, reload: bool, hasChannel: bool, line: Completion<string>)
    ensures var d := DispatchOf(err, reload, hasChannel, line);
      d.completed <==> hasChannel && err.Normal? && line.Normal?
    ensures var d := DispatchOf(err, reload, hasChannel, line);
      d.completed ==> |d.effects| >= 1 && d.effects[|d.effects| - 1] == AppendLine(line.value)
    ensures var d := DispatchOf(err, reload, hasChannel, line);
      forall i :: 0 <= i < |d.effects| && d.effects[i].AppendLine? ==> d.completed
  {
  }

  /** `logState`'s hard-wired `doNotPrintState`. */
  const DoNotPrintState := true

  /** The calls `logState(message)` makes under the policy flag `doNotPrintState`: none
      while the flag is set; with it cleared, the line is output unless paused. */
  function StateDispatch(doNotPrintState: bool, paused: bool, message: string): (r: seq<Effect>)
    ensures r != [] <==> !doNotPrintState && !paused
    ensures r != [] ==> r == [AppendLine(message)]
  {
    if doNotPrintState then []
    else if paused then []
    else [AppendLine(message)]
  }

  /** What `isOpened()` evaluates to: `logStreamID && outputChannel`. */
  datatype OpenProbe =
    | Undefined   // no stream id, or a non-empty id and no output channel
    | EmptyId     // the empty-string id, which `&&` returns as it is
    | Channel     // the output channel

  /** The pause flag after `pauseLogOutput()`: unchanged when `isOpened()` is undefined,
      flipped otherwise. */
  function PauseAfterToggle(paused: bool, probe: OpenProbe): (r: bool)
    ensures r != paused <==> probe != Undefined
  {
    if probe == Undefined then paused else !paused
  }

  /** Toggling twice restores the pause flag. */
  lemma ToggleTwiceRestores(paused: bool, probe: OpenProbe)
    ensures PauseAfterToggle(PauseAfterToggle(paused, probe), probe) == paused
  {
  }

  class LogStream {
    var logStreamID: Option<string>
    var hasOutputChannel: bool   // this.outputChannel is defined
    var pause: bool
    var effects: seq<Effect>     // calls made on the diagnostic and the output channel, oldest first

    /** `new LogStream(diagnostic)`: no stream, no channel, not paused, no calls yet. */
    constructor ()
      ensures logStreamID == None && !hasOutputChannel && !pause && effects == []
    {
      logStreamID := None;
      hasOutputChannel := false;
      pause := false;
      effects := [];
    }

    /** The success callback of `logStreams.create`: the stream id and the output channel
        are set, and the stream counts as opened. */
    method StreamCreated(id: string)
      modifies this`logStreamID, this`hasOutputChannel
      ensures logStreamID == Some(id) && hasOutputChannel
      ensures IsOpened() != Undefined
    {
      logStreamID := Some(id);
      hasOutputChannel := true;
    }

    /** `isOpened()`: undefined exactly when there is no stream id, or a non-empty one
        without an output channel. */
    function IsOpened(): (r: OpenProbe)
      reads this
      ensures r == Undefined <==> logStreamID.None? || (logStreamID.value != "" && !hasOutputChannel)
      ensures r == Channel ==> hasOutputChannel
    {
      match logStreamID
      case None => Undefined
      case Some(id) =>
        if id == "" then EmptyId
        else if hasOutputChannel then Channel
        else Undefined
    }

    /** `logMsg(message)`: nothing while paused; otherwise the calls of `LineDispatch`,
        with `completed` false when the line made it throw. */
    method LogMsg(env: Env, ts: string, message: string) returns (completed: bool)
      modifies this`effects
      ensures old(pause) ==> effects == old(effects) && completed
      ensures !old(pause) ==>
        effects == old(effects) + LineDispatch(env, ts, message, hasOutputChannel).effects
        && completed == LineDispatch(env, ts, message, hasOutputChannel).completed
    {
      if pause {
        return true;
      }
      completed := DispatchLine(GetErrorMessage(env, message), ReloadMatches(message),
                                GetLogStreamLogMessage(env, ts, message));
    }

    /** The steps of an unpaused `logMsg`, given the outcome of `getErrorMessage`, the
        reload test and the outcome of `getLogStreamLogMessage`: report, reset, output,
        stopping at the first throw. */
    method DispatchLine(err: Completion<Option<ErrorRecord>>, reload: bool, line: Completion<string>)
      returns (completed: bool)
      modifies this`effects
      ensures effects == old(effects) + DispatchOf(err, reload, hasOutputChannel, line).effects
      ensures completed == DispatchOf(err, reload, hasOutputChannel, line).completed
    {
      if err.Thrown? {
        return false;
      }
      if err.value.Some? {
        effects := effects + [AddLogStreamError(err.value.value)];
      }
      if reload {
        effects := effects + [ClearDiagnostic];
      }
      if !hasOutputChannel {
        return false;
      }
      if line.Thrown? {
        return false;
      }
      effects := effects + [AppendLine(line.value)];
      return true;
    }

    /** `logState(message)`: state messages are not printed, so no call is made, paused or
        not. */
    method LogState(message: string)
      modifies this`effects
      ensures effects == old(effects)
    {
      effects := effects + StateDispatch(DoNotPrintState, pause, message);
    }

    /** `pauseLogOutput()`: flips the pause flag unless `isOpened()` is undefined. */
    method PauseLogOutput()
      modifies this`pause
      ensures pause == PauseAfterToggle(old(pause), IsOpened())
      ensures IsOpened() == Channel ==> pause == !old(pause)
      ensures logStreamID.None? ==> pause == old(pause)
    {
      if IsOpened() == Undefined {
        return;
      }
      pause := !pause;
    }
  }
}
