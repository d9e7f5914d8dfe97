/**
 * Generation tasks and their event stream (server/generation_service.py).
 *
 * A `GenerationService` keeps a map from task id to `GenerationTask`. A task's
 * stream marks it generating, asks the language model `count` times, appends each
 * reply it can parse, and ends completed unless the generation task was cancelled. The
 * language-model call, the client construction and the other requests that may
 * cancel the generation task while the stream is suspended are inputs: a `Step` per
 * iteration says what the call returned and whether a cancel arrived while the
 * stream waited for it or for its frame to be sent.
 *
 * The pure functions `Stream`, `Loop` and `Iterate` say what a stream does to the
 * task's state and which frames it emits; `GenerationService.GenerateStream` runs
 * the loop on the generation task object and is proved to agree with them, and the lemmas
 * below state the properties of that specification.
 */
module Generation {
  import opened Wrappers
  import opened Strs
  import ContentParse
  import Sse

  datatype Status = Pending | Generating | Completed | Cancelled | Error

  /** The fields of a generation request the stream uses; prompts, model and credentials only feed the call. */
  datatype GenerateRequest = GenerateRequest(count: int, parseRegex: Option<string>)

  datatype GeneratedText = GeneratedText(text: string, labels: Option<string>, rawOutput: string)

  /** `GenerateStatus`, the status report sent in every frame. */
  datatype GenerateStatus = GenerateStatus(
    status: Status, progress: int, currentCount: nat, totalCount: int, message: string, error: Option<string>)

  /** One frame of the stream: an error for an unknown task, or a status report and the text just generated. */
  datatype Frame = ErrorFrame(message: string) | StatusFrame(report: GenerateStatus, latest: Option<GeneratedText>)

  /** The mutable part of a task. */
  datatype TaskState = TaskState(
    status: Status, progress: int, currentCount: nat, texts: seq<GeneratedText>, error: Option<string>, cancelled: bool)

  /** A task as `GenerationTask.__init__` leaves it. */
  const Fresh := TaskState(Pending, 0, 0, [], None, false)

  /** What one language-model call gave: a reply (with what the caller's pattern made of it) or an exception. */
  datatype Outcome = Reply(raw: string, regex: ContentParse.RegexOutcome) | CallFailed(reason: string)

  /**
   * One iteration's inputs: the call's outcome, whether a cancel arrived while the
   * call was awaited, and whether one arrived while the item's frame was being sent.
   */
  datatype Step = Step(cancelDuring: bool, outcome: Outcome, cancelAfter: bool)

  /** The progress figure after `c` of `t` items, in percent. */
  function Progress(c: nat, t: int): (r: int)
    requires t > 0
    ensures c <= t ==> 0 <= r <= 100
    ensures c == t ==> r == 100
  {
    (c * 100) / t
  }

  /** `GenerationTask.get_status`: the status report of a task in state `st` with `total` items requested. */
  function Snapshot(st: TaskState, total: int): (r: GenerateStatus)
    ensures r.status == st.status && r.progress == st.progress && r.currentCount == st.currentCount
    ensures r.totalCount == total && r.error == st.error
    ensures r.message == "已生成 " + IntToString(st.currentCount) + "/" + IntToString(total) + " 条数据"
  {
    GenerateStatus(st.status, st.progress, st.currentCount, total,
      "已生成 " + IntToString(st.currentCount) + "/" + IntToString(total) + " 条数据", st.error)
  }

  /** `GenerationTask.cancel`: the flag is raised and the status overwritten, whatever it was. */
  function CancelState(st: TaskState): (r: TaskState)
    ensures r.cancelled && r.status == Cancelled
    ensures r.progress == st.progress && r.currentCount == st.currentCount && r.texts == st.texts && r.error == st.error
  {
    st.(cancelled := true, status := Cancelled)
  }

  /** `_generate_single_text` after the call: the parsed reply, or None when parsing raised. */
  function Item(outcome: Outcome, parseRegex: Option<string>): (r: Option<GeneratedText>)
    ensures r.Some? ==> outcome.Reply? && r.value.rawOutput == outcome.raw
  {
    match outcome
    case CallFailed(_) => None
    case Reply(raw, regex) =>
      match ContentParse.ParseGeneratedContent(raw, parseRegex, regex)
      case Err(_) => None
      case Ok(p) => Some(GeneratedText(p.text, p.labels, raw))
  }

  /**
   * A failed call, or a reply whose parse raises, yields no item; a reply that
   * parses yields the parsed text, stripped, and labels, with the raw reply kept.
   */
  lemma ItemCases(outcome: Outcome, parseRegex: Option<string>)
    ensures Item(outcome, parseRegex).Some? <==>
      outcome.Reply? && ContentParse.ParseGeneratedContent(outcome.raw, parseRegex, outcome.regex).Ok?
    ensures Item(outcome, parseRegex).Some? ==>
      var p := ContentParse.ParseGeneratedContent(outcome.raw, parseRegex, outcome.regex).value;
      Item(outcome, parseRegex).value == GeneratedText(p.text, p.labels, outcome.raw) && Stripped(p.text, PySpace)
  {
  }

  /** The result of running part of a stream: the generation task's new state and the frames emitted. */
  datatype Run = Run(state: TaskState, frames: seq<Frame>)

  /** One iteration of the loop on a task that was not cancelled when the iteration began. */
  function Iterate(st: TaskState, total: int, parseRegex: Option<string>, step: Step): (r: Run)
    requires total > 0
  {
    IterateWith(st, total, Item(step.outcome, parseRegex), step)
  }

  /** The same iteration once `_generate_single_text` has given its parsed reply, or nothing. */
  function IterateWith(st: TaskState, total: int, item: Option<GeneratedText>, step: Step): (r: Run)
    requires total > 0
  {
    var st1 := if step.cancelDuring then CancelState(st) else st;
    match item
    case None => Run(st1, [])
    case Some(g) =>
      var st2 := st1.(texts := st1.texts + [g], currentCount := st1.currentCount + 1,
                      progress := Progress(st1.currentCount + 1, total));
      var st3 := if step.cancelAfter then CancelState(st2) else st2;
      Run(st3, [StatusFrame(Snapshot(st2, total), Some(g))])
  }

  /** Enough steps for the loop: one per requested item. */
  predicate StepsFit(steps: seq<Step>, total: int)
  {
    |steps| == if total < 0 then 0 else total
  }

  /** The loop over the remaining iterations: it stops with a cancelled frame as soon as it finds the flag raised. */
  function Loop(st: TaskState, total: int, parseRegex: Option<string>, steps: seq<Step>): (r: Run)
    requires steps == [] || |steps| <= total
    decreases |steps|
  {
    if steps == [] then Run(st, [])
    else if st.cancelled then
      var st1 := st.(status := Cancelled);
      Run(st1, [StatusFrame(Snapshot(st1, total), None)])
    else
      var first := Iterate(st, total, parseRegex, steps[0]);
      var rest := Loop(first.state, total, parseRegex, steps[1..]);
      Run(rest.state, first.frames + rest.frames)
  }

  lemma LoopUnfold(st: TaskState, total: int, parseRegex: Option<string>, steps: seq<Step>)
    requires steps != [] && |steps| <= total && !st.cancelled
    ensures var first := Iterate(st, total, parseRegex, steps[0]);
      var rest := Loop(first.state, total, parseRegex, steps[1..]);
      Loop(st, total, parseRegex, steps) == Run(rest.state, first.frames + rest.frames)
  {
  }

  /** One iteration of the loop before a cancel: what is left of the run continues from the new state. */
  lemma LoopStep(st: TaskState, next: TaskState, total: int, parseRegex: Option<string>, steps: seq<Step>, i: nat,
                 whole: Run, emitted: seq<Frame>, more: seq<Frame>)
    requires i < |steps| <= total && !st.cancelled
    requires Run(next, more) == Iterate(st, total, parseRegex, steps[i])
    requires Loop(st, total, parseRegex, steps[i..]).state == whole.state
    requires whole.frames == emitted + Loop(st, total, parseRegex, steps[i..]).frames
    ensures Loop(next, total, parseRegex, steps[i + 1..]).state == whole.state
    ensures whole.frames == (emitted + more) + Loop(next, total, parseRegex, steps[i + 1..]).frames
  {
    assert steps[i..][0] == steps[i] && steps[i..][1..] == steps[i + 1..];
    LoopUnfold(st, total, parseRegex, steps[i..]);
  }

  /**
   * `generate_stream` on a registered task in state `st`: mark it generating and
   * report it; a cancel may arrive while that frame is sent; build the client (which
   * may raise), run the loop, and finish completed with progress 100 unless cancelled.
   */
  function Stream(st: TaskState, total: int, parseRegex: Option<string>, cancelAtStart: bool,
                  clientError: Option<string>, steps: seq<Step>): (r: Run)
    requires StepsFit(steps, total)
    ensures |r.frames| >= 1 && r.frames[0] == StatusFrame(Snapshot(st.(status := Generating), total), None)
  {
    var st1 := st.(status := Generating);
    var first := StatusFrame(Snapshot(st1, total), None);
    var st2 := if cancelAtStart then CancelState(st1) else st1;
    match clientError
    case Some(e) =>
      var st3 := st2.(status := Error, error := Some(e));
      Run(st3, [first, StatusFrame(Snapshot(st3, total), None)])
    case None =>
      var loop := Loop(st2, total, parseRegex, steps);
      if loop.state.cancelled then Run(loop.state, [first] + loop.frames)
      else
        var st3 := loop.state.(status := Completed, progress := 100);
        Run(st3, [first] + loop.frames + [StatusFrame(Snapshot(st3, total), None)])
  }

  /** A failed call or parse changes nothing but what a concurrent cancel changes, and emits no frame. */
  lemma IterateFailure(st: TaskState, total: int, parseRegex: Option<string>, step: Step)
    requires total > 0 && Item(step.outcome, parseRegex).None?
    ensures Iterate(st, total, parseRegex, step).frames == []
    ensures Iterate(st, total, parseRegex, step).state == if step.cancelDuring then CancelState(st) else st
  {
  }

  /** A parsed reply adds exactly one text and one to the count, and is reported in one frame. */
  lemma IterateSuccess(st: TaskState, total: int, parseRegex: Option<string>, step: Step)
    requires total > 0 && Item(step.outcome, parseRegex).Some?
    ensures var r := Iterate(st, total, parseRegex, step);
      var g := Item(step.outcome, parseRegex).value;
      r.state.texts == st.texts + [g] && r.state.currentCount == st.currentCount + 1
      && |r.frames| == 1 && r.frames[0].StatusFrame? && r.frames[0].latest == Some(g)
      && r.frames[0].report.currentCount == st.currentCount + 1
  {
  }

  /** Once the flag is found raised, the loop reports cancelled once and produces nothing more. */
  lemma LoopStopsWhenCancelled(st: TaskState, total: int, parseRegex: Option<string>, steps: seq<Step>)
    requires steps != [] && |steps| <= total && st.cancelled
    ensures Loop(st, total, parseRegex, steps).state == st.(status := Cancelled)
    ensures Loop(st, total, parseRegex, steps).frames == [StatusFrame(Snapshot(st.(status := Cancelled), total), None)]
  {
  }

  /**
   * Through the loop the count keeps matching the list of texts, which only grows,
   * by at most one per step; the progress stays a percentage while the count stays
   * within the total; the error is untouched.
   */
  lemma {:induction false} LoopCounts(st: TaskState, total: int, parseRegex: Option<string>, steps: seq<Step>)
    requires steps == [] || |steps| <= total
    requires st.currentCount == |st.texts|
    ensures var r := Loop(st, total, parseRegex, steps).state;
      r.currentCount == |r.texts| && st.currentCount <= r.currentCount <= st.currentCount + |steps|
      && r.texts[..|st.texts|] == st.texts && r.error == st.error
      && (st.currentCount + |steps| <= total && 0 <= st.progress <= 100 ==> 0 <= r.progress <= 100)
    decreases |steps|
  {
    if steps != [] && !st.cancelled {
      var first := Iterate(st, total, parseRegex, steps[0]);
      LoopCounts(first.state, total, parseRegex, steps[1..]);
      var r := Loop(first.state, total, parseRegex, steps[1..]).state;
      assert r.texts[..|first.state.texts|][..|st.texts|] == r.texts[..|st.texts|];
    }
  }

  predicate Active(s: Status)
  {
    s == Generating || s == Cancelled
  }

  /** The loop never reports completed or error, and never lowers the cancel flag. */
  lemma {:induction false} LoopActive(st: TaskState, total: int, parseRegex: Option<string>, steps: seq<Step>)
    requires steps == [] || |steps| <= total
    requires Active(st.status)
    ensures var r := Loop(st, total, parseRegex, steps);
      Active(r.state.status) && (st.cancelled ==> r.state.cancelled)
      && forall i :: 0 <= i < |r.frames| ==> r.frames[i].StatusFrame? && Active(r.frames[i].report.status)
    decreases |steps|
  {
    if steps != [] && !st.cancelled {
      var first := Iterate(st, total, parseRegex, steps[0]);
      LoopActive(first.state, total, parseRegex, steps[1..]);
    }
  }

  /** A frame reporting the status `s`. */
  predicate Reports(f: Frame, s: Status)
  {
    f.StatusFrame? && f.report.status == s
  }

  /**
   * Without a client error, a stream ends completed exactly when its task was not
   * cancelled; only then is a completed frame sent, as the last frame, with progress
   * 100. A cancel before the loop therefore rules out any completed frame.
   */
  lemma StreamEnd(st: TaskState, total: int, parseRegex: Option<string>, cancelAtStart: bool, steps: seq<Step>)
    requires StepsFit(steps, total)
    ensures var r := Stream(st, total, parseRegex, cancelAtStart, None, steps);
      (r.state.status == Completed <==> !r.state.cancelled)
      && (cancelAtStart || st.cancelled ==> r.state.cancelled)
      && ((exists i :: 0 <= i < |r.frames| && Reports(r.frames[i], Completed)) <==> !r.state.cancelled)
      && (forall i :: 0 <= i < |r.frames| - 1 ==> !Reports(r.frames[i], Completed))
      && (!r.state.cancelled ==> r.state.progress == 100 && r.frames[|r.frames| - 1].report.progress == 100)
  {
    var st1 := st.(status := Generating);
    var st2 := if cancelAtStart then CancelState(st1) else st1;
    var loop := Loop(st2, total, parseRegex, steps);
    LoopActive(st2, total, parseRegex, steps);
    var r := Stream(st, total, parseRegex, cancelAtStart, None, steps);
    var first := StatusFrame(Snapshot(st1, total), None);
    NoneCompleted(first, loop.frames);
    if loop.state.cancelled {
      assert r.frames == [first] + loop.frames;
    } else {
      var head := [first] + loop.frames;
      assert r.frames == head + [r.frames[|r.frames| - 1]];
      assert Reports(r.frames[|r.frames| - 1], Completed);
      forall i | 0 <= i < |r.frames| - 1 ensures !Reports(r.frames[i], Completed) {
        assert r.frames[i] == head[i];
      }
    }
  }

  /** A generating status frame followed by frames of an active task reports no completion. */
  lemma NoneCompleted(first: Frame, frames: seq<Frame>)
    requires first.StatusFrame? && first.report.status == Generating
    requires forall i :: 0 <= i < |frames| ==> frames[i].StatusFrame? && Active(frames[i].report.status)
    ensures forall i :: 0 <= i < |[first] + frames| ==> !Reports(([first] + frames)[i], Completed)
  {
    forall i | 0 <= i < |[first] + frames| ensures !Reports(([first] + frames)[i], Completed) {
      if i > 0 {
        assert ([first] + frames)[i] == frames[i - 1];
      }
    }
  }

  /**
   * A stream on a new task keeps the count equal to the number of texts, never
   * above the number requested, and the progress within 0 to 100.
   */
  lemma StreamOnFreshTask(total: int, parseRegex: Option<string>, cancelAtStart: bool, clientError: Option<string>, steps: seq<Step>)
    requires StepsFit(steps, total)
    ensures var r := Stream(Fresh, total, parseRegex, cancelAtStart, clientError, steps).state;
      r.currentCount == |r.texts| && r.currentCount <= |steps| && (total >= 0 ==> r.currentCount <= total)
      && 0 <= r.progress <= 100
  {
    var st1 := Fresh.(status := Generating);
    var st2 := if cancelAtStart then CancelState(st1) else st1;
    LoopCounts(st2, total, parseRegex, steps);
  }

  /** A client that cannot be built ends the stream in error with its message, after two frames. */
  lemma StreamClientError(st: TaskState, total: int, parseRegex: Option<string>, cancelAtStart: bool, e: string, steps: seq<Step>)
    requires StepsFit(steps, total)
    ensures var r := Stream(st, total, parseRegex, cancelAtStart, Some(e), steps);
      r.state.status == Error && r.state.error == Some(e) && r.state.texts == st.texts
      && |r.frames| == 2 && Reports(r.frames[1], Error) && r.frames[1].report.error == Some(e)
  {
  }

  /** Every step succeeding without a cancel: the requested number of texts, completed, one frame each plus two. */
  predicate SmoothStep(step: Step, parseRegex: Option<string>)
  {
    !step.cancelDuring && !step.cancelAfter && Item(step.outcome, parseRegex).Some?
  }

  lemma {:induction false} LoopSmooth(st: TaskState, total: int, parseRegex: Option<string>, steps: seq<Step>)
    requires steps == [] || |steps| <= total
    requires !st.cancelled
    requires forall i :: 0 <= i < |steps| ==> SmoothStep(steps[i], parseRegex)
    ensures var r := Loop(st, total, parseRegex, steps);
      !r.state.cancelled && r.state.currentCount == st.currentCount + |steps| && |r.frames| == |steps|
    decreases |steps|
  {
    if steps != [] {
      var first := Iterate(st, total, parseRegex, steps[0]);
      assert forall i :: 0 <= i < |steps[1..]| ==> steps[1..][i] == steps[i + 1];
      LoopSmooth(first.state, total, parseRegex, steps[1..]);
    }
  }

  lemma StreamSmooth(total: int, parseRegex: Option<string>, steps: seq<Step>)
    requires StepsFit(steps, total) && total > 0
    requires forall i :: 0 <= i < |steps| ==> SmoothStep(steps[i], parseRegex)
    ensures var r := Stream(Fresh, total, parseRegex, false, None, steps);
      r.state.status == Completed && r.state.currentCount == total && r.state.progress == 100
      && |r.frames| == total + 2
  {
    LoopSmooth(Fresh.(status := Generating), total, parseRegex, steps);
  }

  /** Three requested items whose second call fails: two texts, completed at 100 percent, four frames. */
  lemma OkFailOkExample(steps: seq<Step>)
    requires steps == [Step(false, Reply("甲", ContentParse.Matched([Some("甲")])), false),
                       Step(false, CallFailed("timeout"), false),
                       Step(false, Reply("乙", ContentParse.Matched([Some("乙")])), false)]
    ensures var r := Stream(Fresh, 3, Some("(.+)"), false, None, steps);
      r.state.status == Completed && r.state.currentCount == 2 && r.state.progress == 100
      && r.state.texts == [GeneratedText("甲", None, "甲"), GeneratedText("乙", None, "乙")]
      && |r.frames| == 4
  {
    var regex := Some("(.+)");
    var g1 := GeneratedText("甲", None, "甲");
    var g2 := GeneratedText("乙", None, "乙");
    OneItem("甲", regex);
    OneItem("乙", regex);
    assert steps[0].outcome == Reply("甲", ContentParse.Matched([Some("甲")]));
    assert steps[2].outcome == Reply("乙", ContentParse.Matched([Some("乙")]));
    var st1 := Fresh.(status := Generating);
    var a := Iterate(st1, 3, regex, steps[0]);
    assert a.state.texts == [g1] && a.state.currentCount == 1 && !a.state.cancelled && |a.frames| == 1;
    var b := Iterate(a.state, 3, regex, steps[1]);
    assert b.state == a.state && b.frames == [];
    var c := Iterate(b.state, 3, regex, steps[2]);
    assert c.state.texts == [g1, g2] && c.state.currentCount == 2 && !c.state.cancelled && |c.frames| == 1;
    LoopUnfold(st1, 3, regex, steps);
    assert steps[1..][0] == steps[1] && steps[1..][1..] == [steps[2]];
    LoopUnfold(a.state, 3, regex, steps[1..]);
    LoopUnfold(b.state, 3, regex, [steps[2]]);
    assert [steps[2]][0] == steps[2] && [steps[2]][1..] == [];
    var loop := Loop(st1, 3, regex, steps);
    assert loop.state == c.state && |loop.frames| == 2;
  }

  /** A reply whose only group is the whole stripped reply becomes a text without labels. */
  lemma OneItem(reply: string, parseRegex: Option<string>)
    requires parseRegex.Some? && parseRegex.value != [] && Stripped(reply, PySpace)
    ensures Item(Reply(reply, ContentParse.Matched([Some(reply)])), parseRegex) == Some(GeneratedText(reply, None, reply))
  {
    StripStripped(reply, PySpace);
  }

  /**
   * Streaming a task a second time (an event source reconnecting, say) appends to
   * the same task: after two runs of one item each, the count is above the total.
   */
  lemma RerunExceedsTotal(step: Step)
    requires SmoothStep(step, None)
    ensures var once := Stream(Fresh, 1, None, false, None, [step]).state;
      var twice := Stream(once, 1, None, false, None, [step]).state;
      once.currentCount == 1 && twice.currentCount == 2 && twice.currentCount > 1
  {
    LoopSmooth(Fresh.(status := Generating), 1, None, [step]);
    var once := Stream(Fresh, 1, None, false, None, [step]).state;
    LoopSmooth(once.(status := Generating), 1, None, [step]);
  }

  /** The JSON text of every frame, in order; the JSON encoding itself is a parameter. */
  function Encoded(frames: seq<Frame>, encode: Frame -> string): (r: seq<string>)
    ensures |r| == |frames| && forall i :: 0 <= i < |frames| ==> r[i] == encode(frames[i])
  {
    if frames == [] then [] else [encode(frames[0])] + Encoded(frames[1..], encode)
  }

  /** What the stream writes to the connection: every frame as `data: <json>` and a blank line. */
  function Wire(frames: seq<Frame>, encode: Frame -> string): string
  {
    Sse.Render(Encoded(frames, encode))
  }

  /** An event-source client receives each frame's JSON text, in order, when the encoding writes no line break. */
  lemma WireReceive(frames: seq<Frame>, encode: Frame -> string)
    requires forall i :: 0 <= i < |frames| ==> Sse.OneLine(encode(frames[i]))
    ensures Sse.Receive(Wire(frames, encode)) == Encoded(frames, encode)
  {
    Sse.ReceiveRender(Encoded(frames, encode));
  }

  class GenerationTask {
    const taskId: string
    const request: GenerateRequest
    const totalCount: int
    var status: Status
    var progress: int
    var currentCount: nat
    var generatedTexts: seq<GeneratedText>
    var error: Option<string>
    var cancelled: bool

    /** The generation task's mutable fields as a value. */
    function State(): TaskState
      reads this
    {
      TaskState(status, progress, currentCount, generatedTexts, error, cancelled)
    }

    constructor(taskId: string, request: GenerateRequest)
      ensures this.taskId == taskId && this.request == request && totalCount == request.count
      ensures State() == Fresh
    {
      this.taskId := taskId;
      this.request := request;
      totalCount := request.count;
      status := Pending;
      progress := 0;
      currentCount := 0;
      generatedTexts := [];
      error := None;
      cancelled := false;
    }

    method Cancel()
      modifies this
      ensures State() == CancelState(old(State()))
    {
      cancelled := true;
      status := Cancelled;
    }

    /**
     * The body of the stream's loop once the cancel check has passed
     * (server/generation_service.py:118-133), given what `_generate_single_text`
     * gave back: a cancel may arrive during the call, a parsed reply is appended
     * and reported, and a cancel may arrive while that report is sent; a failed
     * call or parse (`None`) changes nothing else.
     */
    method Advance(step: Step, item: Option<GeneratedText>) returns (emitted: seq<Frame>)
      requires totalCount > 0
      modifies this
      ensures Run(State(), emitted) == IterateWith(old(State()), totalCount, item, step)
    {
      if step.cancelDuring {
        Cancel();
      }
      emitted := [];
      if item.Some? {
        var g := item.value;
        generatedTexts := generatedTexts + [g];
        currentCount := currentCount + 1;
        progress := Progress(currentCount, totalCount);
        emitted := [StatusFrame(GetStatus(), Some(g))];
        if step.cancelAfter {
          Cancel();
        }
      }
    }

    /**
     * The stream's loop (server/generation_service.py:112-133): one iteration per
     * step, stopping with a cancelled report as soon as the flag is found raised.
     */
    method RunLoop(steps: seq<Step>) returns (emitted: seq<Frame>)
      requires steps == [] || |steps| <= totalCount
      modifies this
      ensures Run(State(), emitted) == Loop(old(State()), totalCount, request.parseRegex, steps)
    {
      var n := |steps|;
      ghost var whole := Loop(State(), totalCount, request.parseRegex, steps);
      emitted := [];
      var i := 0;
      while i < n
        invariant 0 <= i <= n
        invariant Loop(State(), totalCount, request.parseRegex, steps[i..]).state == whole.state
        invariant whole.frames == emitted + Loop(State(), totalCount, request.parseRegex, steps[i..]).frames
      {
        if cancelled {
          status := Cancelled;
          emitted := emitted + [StatusFrame(GetStatus(), None)];
          assert steps[i..] != [];
          assert State() == whole.state && emitted == whole.frames;
          break;
        }
        ghost var stI := State();
        var item := Item(steps[i].outcome, request.parseRegex);
        var more := Advance(steps[i], item);
        LoopStep(stI, State(), totalCount, request.parseRegex, steps, i, whole, emitted, more);
        emitted := emitted + more;
        i := i + 1;
      }
      assert State() == whole.state && emitted == whole.frames;
    }

    /**
     * The body of `generate_stream` once the generation task is found: mark it generating and
     * report it, then either fail on the client error or run the loop and finish.
     */
    method RunStream(cancelAtStart: bool, clientError: Option<string>, steps: seq<Step>) returns (frames: seq<Frame>)
      requires StepsFit(steps, totalCount)
      modifies this
      ensures Run(State(), frames) == Stream(old(State()), totalCount, request.parseRegex, cancelAtStart, clientError, steps)
    {
      status := Generating;
      frames := [StatusFrame(GetStatus(), None)];
      if cancelAtStart {
        Cancel();
      }
      if clientError.Some? {
        status := Error;
        error := clientError;
        frames := frames + [StatusFrame(GetStatus(), None)];
        return;
      }
      var emitted := RunLoop(steps);
      frames := frames + emitted;
      if !cancelled {
        status := Completed;
        progress := 100;
        frames := frames + [StatusFrame(GetStatus(), None)];
      }
    }

    function GetStatus(): (r: GenerateStatus)
      reads this
      ensures r == Snapshot(State(), totalCount)
    {
      Snapshot(State(), totalCount)
    }
  }

  class GenerationService {
    var activeTasks: map<string, GenerationTask>

    /** Every registered task is filed under its own id, so distinct ids hold distinct tasks. */
    predicate Valid()
      reads this
    {
      forall id :: id in activeTasks ==> activeTasks[id].taskId == id
    }

    constructor()
      ensures activeTasks == map[] && Valid()
    {
      activeTasks := map[];
    }

    /** `create_task`; the fresh `uuid4` string is the parameter `taskId`. */
    method CreateTask(request: GenerateRequest, taskId: string) returns (id: string)
      requires Valid()
      modifies this
      ensures Valid() && id == taskId
      ensures id in activeTasks && fresh(activeTasks[id])
      ensures activeTasks[id].State() == Fresh && activeTasks[id].request == request
      ensures activeTasks[id].totalCount == request.count
      ensures forall k :: k in old(activeTasks) && k != id ==> k in activeTasks && activeTasks[k] == old(activeTasks)[k]
      ensures activeTasks.Keys == old(activeTasks).Keys + {id}
    {
      var task := new GenerationTask(taskId, request);
      activeTasks := activeTasks[taskId := task];
      id := taskId;
    }

    function GetTask(taskId: string): (r: Option<GenerationTask>)
      reads this
      ensures r.Some? <==> taskId in activeTasks
      ensures r.Some? ==> r.value == activeTasks[taskId]
    {
      if taskId in activeTasks then Some(activeTasks[taskId]) else None
    }

    /** `cancel_task`: true exactly for a registered id, whose task is cancelled even if it already finished. */
    method CancelTask(taskId: string) returns (found: bool)
      requires Valid()
      modifies activeTasks.Values
      ensures found <==> taskId in activeTasks
      ensures found ==> activeTasks[taskId].State() == CancelState(old(activeTasks[taskId].State()))
      ensures forall k :: k in activeTasks && k != taskId ==> activeTasks[k].State() == old(activeTasks[k].State())
    {
      match GetTask(taskId)
      case None =>
        found := false;
      case Some(task) =>
        task.Cancel();
        found := true;
    }

    /** `cleanup_task`: the id is gone afterwards; an absent id changes nothing, so a second call is a no-op. */
    method CleanupTask(taskId: string)
      requires Valid()
      modifies this
      ensures Valid()
      ensures activeTasks == old(activeTasks) - {taskId}
      ensures taskId !in old(activeTasks) ==> activeTasks == old(activeTasks)
    {
      if taskId in activeTasks {
        activeTasks := activeTasks - {taskId};
      }
    }

    /**
     * `generate_stream`: for an unknown id, one error frame and no change; for a
     * registered task, the frames and the final state `Stream` gives.
     */
    method GenerateStream(taskId: string, cancelAtStart: bool, clientError: Option<string>, steps: seq<Step>)
      returns (frames: seq<Frame>)
      requires Valid()
      requires taskId in activeTasks ==> StepsFit(steps, activeTasks[taskId].totalCount)
      modifies activeTasks.Values
      ensures taskId !in activeTasks ==> frames == [ErrorFrame("任务不存在")]
      ensures taskId in activeTasks ==>
        var task := activeTasks[taskId];
        var run := Stream(old(task.State()), task.totalCount, task.request.parseRegex, cancelAtStart, clientError, steps);
        task.State() == run.state && frames == run.frames
      ensures forall k :: k in activeTasks && k != taskId ==> activeTasks[k].State() == old(activeTasks[k].State())
    {
      if taskId !in activeTasks {
        frames := [ErrorFrame("任务不存在")];
        return;
      }
      var task := activeTasks[taskId];
      assert forall k :: k in activeTasks && k != taskId ==> activeTasks[k] != task;
      frames := task.RunStream(cancelAtStart, clientError, steps);
    }
  }
}
