/**
 * What the transform workflow guarantees, stated over the run function that
 * the `TextTransformer` class is proved to follow: what a single run does
 * under each answer of the host, and what holds across any sequence of runs
 * starting from plugin load.
 */
module WorkflowProperties {
  import opened Wrappers
  import opened JsString
  import opened PromptTemplate
  import opened CompletionClient
  import opened TransformWorkflow

  // ---------------------------------------------------------------------
  // Counting host calls in a log
  // ---------------------------------------------------------------------

  function Count(log: seq<Effect>, p: Effect -> bool): nat
    decreases |log|
  {
    if log == [] then 0 else Count(log[..|log| - 1], p) + (if p(log[|log| - 1]) then 1 else 0)
  }

  function Ind(p: Effect -> bool, e: Effect): nat {
    if p(e) then 1 else 0
  }

  predicate IsConfirmCreation(e: Effect) { e == CreateDialog(ConfirmDialogId) }
  predicate IsConfirmHtml(e: Effect) { e.SetHtml? && e.html.ConfirmQuestion? }
  predicate IsButtonSetting(e: Effect) { e.SetButtons? }
  predicate IsTransformCreation(e: Effect) { e == CreateDialog(TransformDialogId) }
  predicate IsFormHtml(e: Effect) { e.SetHtml? && e.html.TransformForm? }
  predicate IsPanel(e: Effect) { e.ShowPanel? }
  predicate IsFit(e: Effect) { e.SetFitToContent? }
  predicate IsOpen(e: Effect) { e.OpenDialog? }
  predicate IsCompletion(e: Effect) { e.Complete? }
  predicate IsReplacement(e: Effect) { e.ReplaceSelection? }

  lemma {:induction false} CountAppend(a: seq<Effect>, b: seq<Effect>, p: Effect -> bool)
    ensures Count(a + b, p) == Count(a, p) + Count(b, p)
    decreases |b|
  {
    if b == [] {
      assert a + b == a;
    } else {
      assert (a + b)[..|a + b| - 1] == a + b[..|b| - 1];
      CountAppend(a, b[..|b| - 1], p);
    }
  }

  lemma CountOne(x: Effect, p: Effect -> bool)
    ensures Count([x], p) == Ind(p, x)
  {
    assert [x][..0] == [];
  }

  lemma CountTwo(x: Effect, y: Effect, p: Effect -> bool)
    ensures Count([x, y], p) == Ind(p, x) + Ind(p, y)
  {
    assert [x, y] == [x] + [y];
    CountAppend([x], [y], p);
    CountOne(x, p);
    CountOne(y, p);
  }

  lemma CountConfirmSetup(handle: Option<string>, created: string, p: Effect -> bool)
    ensures Count(ConfirmSetup(handle, created), p)
         == if handle.Some? then 0
            else Ind(p, CreateDialog(ConfirmDialogId)) + Ind(p, SetHtml(created, ConfirmQuestion))
                 + Ind(p, SetButtons(created, ConfirmButtons))
  {
    if handle.None? {
      var x, y, z := CreateDialog(ConfirmDialogId), SetHtml(created, ConfirmQuestion), SetButtons(created, ConfirmButtons);
      assert ConfirmSetup(handle, created) == [x, y] + [z];
      CountAppend([x, y], [z], p);
      CountTwo(x, y, p);
      CountOne(z, p);
    }
  }

  lemma CountTransformSetup(handle: Option<string>, created: string, default: string, p: Effect -> bool)
    ensures Count(TransformSetup(handle, created, default), p)
         == if handle.Some? then 0
            else Ind(p, CreateDialog(TransformDialogId)) + Ind(p, SetHtml(created, TransformForm(default)))
                 + Ind(p, ShowPanel) + Ind(p, SetFitToContent(created))
  {
    if handle.None? {
      var w, x, y, z := CreateDialog(TransformDialogId), SetHtml(created, TransformForm(default)), ShowPanel, SetFitToContent(created);
      assert TransformSetup(handle, created, default) == [w, x] + [y, z];
      CountAppend([w, x], [y, z], p);
      CountTwo(w, x, p);
      CountTwo(y, z, p);
    }
  }

  lemma CountCallPhase(h: HostAnswers, p: Effect -> bool)
    ensures Count(CallPhase(h), p)
         == Ind(p, Complete(Render(h.fullPrompt, h.defaultTransform, h.selectedText), h.apiKey))
            + (if DoTransform(h.outcome).Some? then Ind(p, ReplaceSelection(DoTransform(h.outcome).value.result)) else 0)
  {
    var call := Complete(Render(h.fullPrompt, h.defaultTransform, h.selectedText), h.apiKey);
    if DoTransform(h.outcome).Some? {
      CountTwo(call, ReplaceSelection(DoTransform(h.outcome).value.result), p);
    } else {
      CountOne(call, p);
    }
  }

  /** A count over one run's host calls, by phase. */
  lemma CountRunStep(c: Option<string>, t: Option<string>, h: HostAnswers, p: Effect -> bool)
    ensures Count(RunStep(c, t, h).effects, p)
         == Count(ConfirmSetup(c, h.createdConfirmHandle), p) + Ind(p, OpenDialog(HandleOr(c, h.createdConfirmHandle)))
            + (if h.confirmChoice != "yes" then 0
               else Count(TransformSetup(t, h.createdTransformHandle, h.defaultTransform), p)
                    + Ind(p, OpenDialog(HandleOr(t, h.createdTransformHandle)))
                    + (if PassesGuards(h) then Count(CallPhase(h), p) else 0))
  {
    var confirmPhase := ConfirmSetup(c, h.createdConfirmHandle) + [OpenDialog(HandleOr(c, h.createdConfirmHandle))];
    CountAppend(ConfirmSetup(c, h.createdConfirmHandle), [OpenDialog(HandleOr(c, h.createdConfirmHandle))], p);
    CountOne(OpenDialog(HandleOr(c, h.createdConfirmHandle)), p);
    if h.confirmChoice == "yes" {
      var transformPhase := TransformSetup(t, h.createdTransformHandle, h.defaultTransform)
                            + [OpenDialog(HandleOr(t, h.createdTransformHandle))];
      CountAppend(TransformSetup(t, h.createdTransformHandle, h.defaultTransform), [OpenDialog(HandleOr(t, h.createdTransformHandle))], p);
      CountOne(OpenDialog(HandleOr(t, h.createdTransformHandle)), p);
      CountAppend(confirmPhase, transformPhase, p);
      if PassesGuards(h) {
        CountAppend(confirmPhase + transformPhase, CallPhase(h), p);
      }
    }
  }

  /** The same count, with every effect of the run written out. */
  lemma CountRunStepExpanded(c: Option<string>, t: Option<string>, h: HostAnswers, p: Effect -> bool)
    ensures Count(RunStep(c, t, h).effects, p)
         == (if c.Some? then 0
             else Ind(p, CreateDialog(ConfirmDialogId)) + Ind(p, SetHtml(h.createdConfirmHandle, ConfirmQuestion))
                  + Ind(p, SetButtons(h.createdConfirmHandle, ConfirmButtons)))
            + Ind(p, OpenDialog(HandleOr(c, h.createdConfirmHandle)))
            + (if h.confirmChoice != "yes" then 0
               else (if t.Some? then 0
                     else Ind(p, CreateDialog(TransformDialogId)) + Ind(p, SetHtml(h.createdTransformHandle, TransformForm(h.defaultTransform)))
                          + Ind(p, ShowPanel) + Ind(p, SetFitToContent(h.createdTransformHandle)))
                    + Ind(p, OpenDialog(HandleOr(t, h.createdTransformHandle)))
                    + (if !PassesGuards(h) then 0
                       else Ind(p, Complete(Render(h.fullPrompt, h.defaultTransform, h.selectedText), h.apiKey))
                            + (if DoTransform(h.outcome).Some? then Ind(p, ReplaceSelection(DoTransform(h.outcome).value.result)) else 0)))
  {
    CountRunStep(c, t, h, p);
    CountConfirmSetup(c, h.createdConfirmHandle, p);
    CountTransformSetup(t, h.createdTransformHandle, h.defaultTransform, p);
    CountCallPhase(h, p);
  }

  // ---------------------------------------------------------------------
  // One run
  // ---------------------------------------------------------------------

  /**
   * The confirmation dialog is created, given its text and given its two
   * buttons on a run exactly when its handle is still null, once each.
   */
  lemma ConfirmDialogSetUpWhileUnset(c: Option<string>, t: Option<string>, h: HostAnswers)
    ensures var e := RunStep(c, t, h).effects;
            var made := if c.None? then 1 else 0;
            Count(e, IsConfirmCreation) == made && Count(e, IsConfirmHtml) == made && Count(e, IsButtonSetting) == made
  {
    CountRunStepExpanded(c, t, h, IsConfirmCreation);
    CountRunStepExpanded(c, t, h, IsConfirmHtml);
    CountRunStepExpanded(c, t, h, IsButtonSetting);
  }

  /**
   * The instruction dialog is created, given its form, and accompanied by
   * `showAPanel` and `setFitToContent`, on a run exactly when its handle is
   * still null and the user confirmed, once each.
   */
  lemma InstructionDialogSetUpAfterConfirmation(c: Option<string>, t: Option<string>, h: HostAnswers)
    ensures var e := RunStep(c, t, h).effects;
            var made := if t.None? && h.confirmChoice == "yes" then 1 else 0;
            Count(e, IsTransformCreation) == made && Count(e, IsFormHtml) == made
            && Count(e, IsPanel) == made && Count(e, IsFit) == made
  {
    CountRunStepExpanded(c, t, h, IsTransformCreation);
    CountRunStepExpanded(c, t, h, IsFormHtml);
    CountRunStepExpanded(c, t, h, IsPanel);
    CountRunStepExpanded(c, t, h, IsFit);
  }

  /**
   * The guards: the instruction dialog is opened only after a `yes`, the
   * completion is called exactly when the user confirmed, pressed `ok` and
   * typed something, and the selection is replaced exactly when, besides,
   * the completion promise resolves. Otherwise the run is cancelled.
   */
  lemma GuardsDecideTheCall(c: Option<string>, t: Option<string>, h: HostAnswers)
    ensures var e := RunStep(c, t, h).effects;
            Count(e, IsOpen) == (if h.confirmChoice == "yes" then 2 else 1)
            && Count(e, IsCompletion) == (if PassesGuards(h) then 1 else 0)
            && Count(e, IsReplacement) == (if PassesGuards(h) && DoTransform(h.outcome).Some? then 1 else 0)
    ensures RunStep(c, t, h).outcome.Cancelled? <==> !PassesGuards(h)
  {
    CountRunStepExpanded(c, t, h, IsOpen);
    CountRunStepExpanded(c, t, h, IsCompletion);
    CountRunStepExpanded(c, t, h, IsReplacement);
  }

  /**
   * A run that passes the guards ends with the one completion call, whose
   * prompt is the template rendered with the `defaultTransform` setting and
   * the selection, followed by `replaceSelection` of the resolved result;
   * when the promise never resolves, the call is the last thing that happens.
   */
  lemma CallEndsTheRun(c: Option<string>, t: Option<string>, h: HostAnswers)
    requires PassesGuards(h)
    ensures var st := RunStep(c, t, h);
            var call := Complete(Render(h.fullPrompt, h.defaultTransform, h.selectedText), h.apiKey);
            match DoTransform(h.outcome)
            case None =>
              |st.effects| >= 1 && st.effects[|st.effects| - 1] == call && st.outcome == Suspended
            case Some(res) =>
              |st.effects| >= 2 && st.effects[|st.effects| - 2] == call
              && st.effects[|st.effects| - 1] == ReplaceSelection(res.result) && st.outcome == Replaced(res.result)
  {
  }

  /** A failed call still replaces the selection, with the empty string. */
  lemma FailedCallClearsSelection(c: Option<string>, t: Option<string>, h: HostAnswers)
    requires PassesGuards(h) && CallOpenAI(h.outcome).Rejected?
    ensures var st := RunStep(c, t, h);
            |st.effects| >= 1 && st.effects[|st.effects| - 1] == ReplaceSelection("") && st.outcome == Replaced("")
  {
    CallEndsTheRun(c, t, h);
  }

  /**
   * The typed instruction only decides whether the run goes on: two runs
   * that differ only in non-empty typed text do exactly the same things.
   */
  lemma TypedTextOnlyGates(c: Option<string>, t: Option<string>, h: HostAnswers, typed: string)
    requires h.typedText != "" && typed != ""
    ensures RunStep(c, t, h.(typedText := typed)) == RunStep(c, t, h)
  {
  }

  /**
   * After a run the confirmation handle is set; a set handle never changes;
   * the instruction handle is set after a run exactly when it was already
   * set or the user confirmed.
   */
  lemma HandlesPersist(c: Option<string>, t: Option<string>, h: HostAnswers)
    ensures var st := RunStep(c, t, h);
            st.confirmHandle.Some? && (c.Some? ==> st.confirmHandle == c)
            && (t.Some? ==> st.transformHandle == t)
            && (st.transformHandle.Some? <==> t.Some? || h.confirmChoice == "yes")
  {
  }

  /** Once both dialogs exist, a run only opens them, calls and replaces. */
  lemma ReusedDialogsOnlyOpen(c: Option<string>, t: Option<string>, h: HostAnswers)
    requires c.Some? && t.Some?
    ensures forall e :: e in RunStep(c, t, h).effects ==> e.OpenDialog? || e.Complete? || e.ReplaceSelection?
  {
  }

  /** The only form HTML a run can set is the one built from that run's `defaultTransform`, on the creating run. */
  lemma FormOfARun(c: Option<string>, t: Option<string>, h: HostAnswers)
    ensures forall e :: e in RunStep(c, t, h).effects && IsFormHtml(e) ==>
              t.None? && h.confirmChoice == "yes" && e == SetHtml(h.createdTransformHandle, TransformForm(h.defaultTransform))
  {
    var confirmPhase := ConfirmSetup(c, h.createdConfirmHandle) + [OpenDialog(HandleOr(c, h.createdConfirmHandle))];
    assert forall e :: e in confirmPhase ==> !IsFormHtml(e);
    if h.confirmChoice == "yes" {
      var transformPhase := TransformSetup(t, h.createdTransformHandle, h.defaultTransform)
                            + [OpenDialog(HandleOr(t, h.createdTransformHandle))];
      assert forall e :: e in transformPhase && IsFormHtml(e) ==>
               t.None? && e == SetHtml(h.createdTransformHandle, TransformForm(h.defaultTransform));
      assert forall e :: e in CallPhase(h) ==> !IsFormHtml(e);
    }
  }

  // ---------------------------------------------------------------------
  // Any sequence of runs
  // ---------------------------------------------------------------------

  /** Every set-up call so far was made exactly once per handle that is set. */
  ghost predicate SetUpOncePerHandle(s: Session) {
    var c := if s.confirmHandle.Some? then 1 else 0;
    var t := if s.transformHandle.Some? then 1 else 0;
    Count(s.log, IsConfirmCreation) == c && Count(s.log, IsConfirmHtml) == c && Count(s.log, IsButtonSetting) == c
    && Count(s.log, IsTransformCreation) == t && Count(s.log, IsFormHtml) == t
    && Count(s.log, IsPanel) == t && Count(s.log, IsFit) == t
  }

  lemma RunKeepsSetUpOnce(s: Session, h: HostAnswers)
    requires SetUpOncePerHandle(s)
    ensures SetUpOncePerHandle(Run(s, h))
  {
    var e := RunStep(s.confirmHandle, s.transformHandle, h).effects;
    ConfirmDialogSetUpWhileUnset(s.confirmHandle, s.transformHandle, h);
    InstructionDialogSetUpAfterConfirmation(s.confirmHandle, s.transformHandle, h);
    CountAppend(s.log, e, IsConfirmCreation);
    CountAppend(s.log, e, IsConfirmHtml);
    CountAppend(s.log, e, IsButtonSetting);
    CountAppend(s.log, e, IsTransformCreation);
    CountAppend(s.log, e, IsFormHtml);
    CountAppend(s.log, e, IsPanel);
    CountAppend(s.log, e, IsFit);
  }

  lemma {:induction false} RunsKeepSetUpOnce(s: Session, hs: seq<HostAnswers>)
    requires SetUpOncePerHandle(s)
    ensures SetUpOncePerHandle(Runs(s, hs))
    ensures s.confirmHandle.Some? || hs != [] ==> Runs(s, hs).confirmHandle.Some?
    decreases |hs|
  {
    if hs != [] {
      RunKeepsSetUpOnce(s, hs[0]);
      HandlesPersist(s.confirmHandle, s.transformHandle, hs[0]);
      RunsKeepSetUpOnce(Run(s, hs[0]), hs[1..]);
    }
  }

  /**
   * From plugin load, over any sequence of runs: the confirmation dialog is
   * created, filled and given buttons at most once (exactly once after the
   * first run), and so are the instruction dialog, its form, the panel and
   * `setFitToContent`.
   */
  lemma DialogsSetUpAtMostOnce(hs: seq<HostAnswers>)
    ensures var s := Runs(Initial, hs);
            Count(s.log, IsConfirmCreation) <= 1 && Count(s.log, IsConfirmHtml) <= 1 && Count(s.log, IsButtonSetting) <= 1
            && Count(s.log, IsTransformCreation) <= 1 && Count(s.log, IsFormHtml) <= 1
            && Count(s.log, IsPanel) <= 1 && Count(s.log, IsFit) <= 1
    ensures hs != [] ==> Runs(Initial, hs).confirmHandle.Some? && Count(Runs(Initial, hs).log, IsConfirmCreation) == 1
  {
    RunsKeepSetUpOnce(Initial, hs);
  }

  /** The first run in which the user confirms, if any. */
  function FirstConfirmed(hs: seq<HostAnswers>): (r: Option<nat>)
    ensures r.Some? ==> r.value < |hs| && hs[r.value].confirmChoice == "yes"
    ensures forall j :: 0 <= j < |hs| && (r.None? || j < r.value) ==> hs[j].confirmChoice != "yes"
  {
    if hs == [] then None
    else if hs[0].confirmChoice == "yes" then Some(0)
    else match FirstConfirmed(hs[1..])
      case None => None
      case Some(k) => Some(k + 1)
  }

  ghost predicate NoForms(log: seq<Effect>) {
    forall e :: e in log ==> !IsFormHtml(e)
  }

  ghost predicate FormsCarry(log: seq<Effect>, default: string) {
    forall e :: e in log && IsFormHtml(e) ==> e.html.defaultValue == default
  }

  lemma {:induction false} FormNeverRefreshed(s: Session, hs: seq<HostAnswers>, default: string)
    requires s.transformHandle.Some? && FormsCarry(s.log, default)
    ensures Runs(s, hs).transformHandle == s.transformHandle && FormsCarry(Runs(s, hs).log, default)
    decreases |hs|
  {
    if hs != [] {
      var s1 := Run(s, hs[0]);
      HandlesPersist(s.confirmHandle, s.transformHandle, hs[0]);
      FormOfARun(s.confirmHandle, s.transformHandle, hs[0]);
      FormNeverRefreshed(s1, hs[1..], default);
    }
  }

  /**
   * From plugin load, over any sequence of runs: the instruction dialog
   * exists exactly when some run was confirmed, and every form HTML ever set
   * carries the `defaultTransform` read by the first confirmed run — the
   * value is captured then and never refreshed.
   */
  lemma {:induction false} FormKeepsFirstDefault(s: Session, hs: seq<HostAnswers>)
    requires s.transformHandle.None? && NoForms(s.log)
    ensures var r := Runs(s, hs);
            match FirstConfirmed(hs)
            case None => r.transformHandle.None? && NoForms(r.log)
            case Some(k) => r.transformHandle.Some? && FormsCarry(r.log, hs[k].defaultTransform)
    decreases |hs|
  {
    if hs != [] {
      var h := hs[0];
      var s1 := Run(s, h);
      HandlesPersist(s.confirmHandle, s.transformHandle, h);
      FormOfARun(s.confirmHandle, s.transformHandle, h);
      if h.confirmChoice == "yes" {
        assert FormsCarry(s1.log, h.defaultTransform);
        FormNeverRefreshed(s1, hs[1..], h.defaultTransform);
        assert Runs(s, hs) == Runs(s1, hs[1..]);
      } else {
        assert NoForms(s1.log);
        FormKeepsFirstDefault(s1, hs[1..]);
        assert Runs(s, hs) == Runs(s1, hs[1..]);
        match FirstConfirmed(hs[1..])
        case None =>
        case Some(k) => assert hs[k + 1] == hs[1..][k];
      }
    }
  }

  // ---------------------------------------------------------------------
  // Two end-to-end runs
  // ---------------------------------------------------------------------

  /** The default template rendered with "more casual" and "hello world". */
  lemma HelloWorldPrompt()
    ensures Render(DefaultFullPrompt, "more casual", "hello world")
         == DefaultLead + "more casual" + DefaultMiddle + "hello world"
  {
    AbsentFirstChar("more casual", ContentPlaceholder);
    RenderDefault("more casual", "hello world");
  }

  /** A 200 response whose content is "hi there" resolves to "hi there". */
  lemma HelloWorldResult(tokens: nat)
    ensures DoTransform(Response(OkStatus, Json(ResponseJson(Some("hi there"), Some(Usage(Some(tokens)))))))
         == Some(CompletionResult(true, "hi there", Some(tokens)))
  {
    TrimmedGreeting();
  }

  /** "hi there" has nothing to trim. */
  lemma TrimmedGreeting()
    ensures Trim("hi there") == "hi there"
  {
    assert "hi there" == [] + "hi there" + [];
    TrimUnique("hi there", [], "hi there", []);
  }

  /**
   * Selection "hello world", setting "more casual", the default template, a
   * 200 response with "hi there": the prompt is the template's text around
   * the two values and the selection becomes "hi there".
   */
  lemma HelloWorldRun(c: Option<string>, t: Option<string>, h: HostAnswers, key: string, tokens: nat)
    requires h.confirmChoice == "yes" && h.transformChoice == "ok" && h.typedText == "more casual"
    requires h.defaultTransform == "more casual" && h.selectedText == "hello world"
    requires h.fullPrompt == DefaultFullPrompt && h.apiKey == key
    requires h.outcome == Response(OkStatus, Json(ResponseJson(Some("hi there"), Some(Usage(Some(tokens))))))
    ensures var st := RunStep(c, t, h);
            |st.effects| >= 2
            && st.effects[|st.effects| - 2] == Complete(DefaultLead + "more casual" + DefaultMiddle + "hello world", key)
            && st.effects[|st.effects| - 1] == ReplaceSelection("hi there")
            && st.outcome == Replaced("hi there")
  {
    HelloWorldPrompt();
    HelloWorldResult(tokens);
    CallEndsTheRun(c, t, h);
  }

  /** A 500 response: the run completes, and the selection is overwritten with "". */
  lemma ServerErrorRun(c: Option<string>, t: Option<string>, h: HostAnswers, body: Body)
    requires PassesGuards(h) && h.outcome == Response(500, body)
    ensures var st := RunStep(c, t, h);
            |st.effects| >= 1 && st.effects[|st.effects| - 1] == ReplaceSelection("") && st.outcome == Replaced("")
  {
    FailedCallClearsSelection(c, t, h);
  }
}
