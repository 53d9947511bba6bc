/**
 * The `transformText` command: two dialog handles that are created on first
 * use and reused by every later run, and one run as a fixed sequence of host
 * calls with early exits. The host's answers for a run (dialog buttons,
 * typed text, setting values, the handles `create` returns, the service's
 * outcome) are given up front; the host calls the run makes are recorded,
 * in order, in an effect log.
 */
module TransformWorkflow {
  import opened Wrappers
  import opened JsString
  import opened PromptTemplate
  import opened CompletionClient

  const ConfirmDialogId := "completeLinkDialog"
  const TransformDialogId := "myid"

  datatype ButtonSpec = ButtonSpec(id: string, title: string)

  const ConfirmButtons := [ButtonSpec("yes", "Yes"), ButtonSpec("no", "No")]

  /** The two dialog bodies; the form's only varying part is the value its input starts with. */
  datatype DialogHtml = ConfirmQuestion | TransformForm(defaultValue: string)

  /** The host calls a run makes. */
  datatype Effect =
    | CreateDialog(id: string)
    | SetHtml(handle: string, html: DialogHtml)
    | SetButtons(handle: string, buttons: seq<ButtonSpec>)
    | ShowPanel                       // showAPanel(), its own host calls not recorded
    | SetFitToContent(handle: string)
    | OpenDialog(handle: string)
    | Complete(prompt: string, apiKey: string)
    | ReplaceSelection(text: string)

  /** The host's answers to one run, in the order the run asks for them. */
  datatype HostAnswers = HostAnswers(
    apiKey: string,
    selectedText: string,
    createdConfirmHandle: string,     // what dialogs.create returns for the confirmation dialog
    confirmChoice: string,            // id of the button that closed it
    defaultTransform: string,         // the `defaultTransform` setting
    createdTransformHandle: string,   // what dialogs.create returns for the instruction dialog
    transformChoice: string,          // id of the button that closed it
    typedText: string,                // the submitted `transform` field
    fullPrompt: string,               // the `defaultFullPrompt` setting
    outcome: Outcome)

  /** How a run ends: an early return, a replacement, or waiting forever on the completion promise. */
  datatype RunOutcome = Cancelled | Replaced(text: string) | Suspended

  /** The two module-level handles and everything recorded so far. */
  datatype Session = Session(confirmHandle: Option<string>, transformHandle: Option<string>, log: seq<Effect>)

  /** What one run does, given the handles it starts with. */
  datatype Step = Step(confirmHandle: Option<string>, transformHandle: Option<string>, effects: seq<Effect>, outcome: RunOutcome)

  const Initial := Session(None, None, [])

  /** The run gets as far as the completion call. */
  predicate PassesGuards(h: HostAnswers) {
    h.confirmChoice == "yes" && h.transformChoice == "ok" && h.typedText != ""
  }

  // ---------------------------------------------------------------------
  // One run, as a function of the handles it starts with
  // ---------------------------------------------------------------------

  function HandleOr(handle: Option<string>, created: string): string {
    if handle.Some? then handle.value else created
  }

  /** Creating the confirmation dialog, only while its handle is null. */
  function ConfirmSetup(handle: Option<string>, created: string): seq<Effect> {
    if handle.Some? then []
    else [CreateDialog(ConfirmDialogId), SetHtml(created, ConfirmQuestion), SetButtons(created, ConfirmButtons)]
  }

  /** Creating the instruction dialog, only while its handle is null; the form embeds `default`. */
  function TransformSetup(handle: Option<string>, created: string, default: string): seq<Effect> {
    if handle.Some? then []
    else [CreateDialog(TransformDialogId), SetHtml(created, TransformForm(default)), ShowPanel, SetFitToContent(created)]
  }

  /** The completion call and, once its promise resolves, the replacement. */
  function CallPhase(h: HostAnswers): seq<Effect> {
    var call := [Complete(Render(h.fullPrompt, h.defaultTransform, h.selectedText), h.apiKey)];
    match DoTransform(h.outcome)
    case None => call
    case Some(res) => call + [ReplaceSelection(res.result)]
  }

  function RunStep(confirm: Option<string>, transform: Option<string>, h: HostAnswers): Step {
    var c := HandleOr(confirm, h.createdConfirmHandle);
    var confirmPhase := ConfirmSetup(confirm, h.createdConfirmHandle) + [OpenDialog(c)];
    if h.confirmChoice != "yes" then Step(Some(c), transform, confirmPhase, Cancelled)
    else
      var t := HandleOr(transform, h.createdTransformHandle);
      var transformPhase := TransformSetup(transform, h.createdTransformHandle, h.defaultTransform) + [OpenDialog(t)];
      if h.transformChoice != "ok" || h.typedText == "" then
        Step(Some(c), Some(t), confirmPhase + transformPhase, Cancelled)
      else
        Step(Some(c), Some(t), confirmPhase + transformPhase + CallPhase(h),
             match DoTransform(h.outcome)
             case None => Suspended
             case Some(res) => Replaced(res.result))
  }

  function Run(s: Session, h: HostAnswers): Session {
    var st := RunStep(s.confirmHandle, s.transformHandle, h);
    Session(st.confirmHandle, st.transformHandle, s.log + st.effects)
  }

  /** A sequence of runs, one after another. */
  function Runs(s: Session, hs: seq<HostAnswers>): Session
    decreases |hs|
  {
    if hs == [] then s else Runs(Run(s, hs[0]), hs[1..])
  }

  // ---------------------------------------------------------------------
  // The plugin's state, updated in place by the command
  // ---------------------------------------------------------------------

  class TextTransformer {
    var confirmDialogHandle: Option<string>
    var transformTextDialogHandle: Option<string>
    var log: seq<Effect>

    function State(): Session
      reads this
    {
      Session(confirmDialogHandle, transformTextDialogHandle, log)
    }

    /** At plugin load both handles are unset and nothing has happened. */
    constructor ()
      ensures State() == Initial
    {
      confirmDialogHandle := None;
      transformTextDialogHandle := None;
      log := [];
    }

    /** One host call, appended to the log. */
    method Record(e: Effect)
      modifies this
      ensures log == old(log) + [e]
      ensures confirmDialogHandle == old(confirmDialogHandle)
      ensures transformTextDialogHandle == old(transformTextDialogHandle)
    {
      log := log + [e];
    }

    /** Lines 108-113: the confirmation dialog is created and filled only while its handle is null. */
    method EnsureConfirmDialog(created: string) returns (handle: string)
      modifies this
      ensures handle == HandleOr(old(confirmDialogHandle), created)
      ensures confirmDialogHandle == Some(handle)
      ensures transformTextDialogHandle == old(transformTextDialogHandle)
      ensures log == old(log) + ConfirmSetup(old(confirmDialogHandle), created)
    {
      if confirmDialogHandle.None? {
        Record(CreateDialog(ConfirmDialogId));
        confirmDialogHandle := Some(created);
        Record(SetHtml(created, ConfirmQuestion));
        Record(SetButtons(created, ConfirmButtons));
      }
      handle := confirmDialogHandle.value;
    }

    /** Lines 122-166: the instruction dialog likewise; its form embeds `default`. */
    method EnsureTransformDialog(created: string, default: string) returns (handle: string)
      modifies this
      ensures handle == HandleOr(old(transformTextDialogHandle), created)
      ensures transformTextDialogHandle == Some(handle)
      ensures confirmDialogHandle == old(confirmDialogHandle)
      ensures log == old(log) + TransformSetup(old(transformTextDialogHandle), created, default)
    {
      if transformTextDialogHandle.None? {
        Record(CreateDialog(TransformDialogId));
        transformTextDialogHandle := Some(created);
        Record(SetHtml(created, TransformForm(default)));
        Record(ShowPanel);
        Record(SetFitToContent(created));
      }
      handle := transformTextDialogHandle.value;
    }

    /** One run of the command. */
    method TransformText(h: HostAnswers) returns (outcome: RunOutcome)
      modifies this
      ensures State() == Run(old(State()), h)
      ensures outcome == RunStep(old(confirmDialogHandle), old(transformTextDialogHandle), h).outcome
    {
      ghost var start := State();
      var confirmHandle := EnsureConfirmDialog(h.createdConfirmHandle);
      Record(OpenDialog(confirmHandle));
      ghost var confirmPhase := ConfirmSetup(start.confirmHandle, h.createdConfirmHandle) + [OpenDialog(confirmHandle)];
      assert log == start.log + confirmPhase;
      if h.confirmChoice != "yes" {
        return Cancelled;
      }

      var transformCommand := h.defaultTransform;
      ghost var mid := log;
      var transformHandle := EnsureTransformDialog(h.createdTransformHandle, transformCommand);
      Record(OpenDialog(transformHandle));
      ghost var transformPhase := TransformSetup(start.transformHandle, h.createdTransformHandle, transformCommand)
                                  + [OpenDialog(transformHandle)];
      assert log == mid + transformPhase;
      assert log == start.log + (confirmPhase + transformPhase);
      if h.transformChoice != "ok" {
        return Cancelled;
      }
      if h.typedText == "" {
        return Cancelled;
      }

      var fullPrompt := h.fullPrompt;
      fullPrompt := ReplaceFirst(fullPrompt, InstructionPlaceholder, transformCommand);
      fullPrompt := ReplaceFirst(fullPrompt, ContentPlaceholder, h.selectedText);
      ghost var before := log;
      Record(Complete(fullPrompt, h.apiKey));
      var result := DoTransform(h.outcome);
      if result.None? {
        assert log == before + CallPhase(h);
        assert log == start.log + (confirmPhase + transformPhase + CallPhase(h));
        return Suspended;
      }
      Record(ReplaceSelection(result.value.result));
      assert log == before + CallPhase(h);
      assert log == start.log + (confirmPhase + transformPhase + CallPhase(h));
      return Replaced(result.value.result);
    }
  }
}
