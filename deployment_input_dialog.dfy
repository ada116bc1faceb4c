/**
 * The deployment input dialog (extensions/resource-deployment/src/ui/deploymentInputDialog.ts):
 * the three callbacks that collect what the form engine creates, the close
 * validator that runs every collected validator, and the completion step
 * that reads the inputs into a model and hands it on.
 */
module DeploymentInputDialogs {
  import opened Wrappers
  import opened Strings
  import opened JsValues
  import opened Azdata
  import opened ModelViewUtils

  /** Label of the dialog's OK button. */
  const OkButtonText := "Open Notebook"

  /** What the dialog opens once it completes: a notebook, or a command run with the model. */
  datatype DialogKind = NotebookBased(notebook: string) | CommandBased(command: string)

  datatype DialogInfo = DialogInfo(title: string, name: string, tabs: seq<TabInfo>, kind: DialogKind)

  /** The request `onComplete` makes of the host. */
  datatype Completion =
    | LaunchNotebook(notebook: string)
    | ExecuteCommand(command: string, model: Model)
    | Failed(error: string)

  /** The result of each validator against `ui`, in registration order. */
  function Outcomes(validators: seq<Validator>, ui: UiState): (rs: seq<ValidationResult>)
    ensures |rs| == |validators|
    ensures forall i :: 0 <= i < |validators| ==> rs[i] == Evaluate(validators[i], ui)
  {
    seq(|validators|, i requires 0 <= i < |validators| => Evaluate(validators[i], ui))
  }

  /** The messages of the failed results, in order. */
  function Failures(results: seq<ValidationResult>): seq<string>
    decreases |results|
  {
    if results == [] then []
    else
      var last := results[|results| - 1];
      Failures(results[..|results| - 1]) + (if last.valid then [] else [last.message])
  }

  /** The messages of the validators that fail against `ui`, in registration order. */
  function FailingMessages(validators: seq<Validator>, ui: UiState): seq<string> {
    Failures(Outcomes(validators, ui))
  }

  /** The failures of a split list are those of the first part, then those of the second. */
  lemma {:induction false} FailuresAppend(a: seq<ValidationResult>, b: seq<ValidationResult>)
    ensures Failures(a + b) == Failures(a) + Failures(b)
    decreases |b|
  {
    if b == [] {
      assert a + b == a;
    } else {
      var k := |b| - 1;
      assert (a + b)[..|a + b| - 1] == a + b[..k];
      assert (a + b)[|a + b| - 1] == b[k];
      FailuresAppend(a, b[..k]);
    }
  }

  /** Validators registered later report their failures after those registered earlier. */
  lemma {:induction false} FailingMessagesAppend(a: seq<Validator>, b: seq<Validator>, ui: UiState)
    ensures FailingMessages(a + b, ui) == FailingMessages(a, ui) + FailingMessages(b, ui)
  {
    assert Outcomes(a + b, ui) == Outcomes(a, ui) + Outcomes(b, ui);
    FailuresAppend(Outcomes(a, ui), Outcomes(b, ui));
  }

  lemma {:induction false} FailuresMembership(results: seq<ValidationResult>, m: string)
    ensures m in Failures(results) <==> exists i :: 0 <= i < |results| && !results[i].valid && results[i].message == m
    decreases |results|
  {
    if results != [] {
      var k := |results| - 1;
      var init := results[..k];
      FailuresMembership(init, m);
      assert forall i :: 0 <= i < k ==> init[i] == results[i];
    }
  }

  /** A message is among the failures exactly when some registered validator fails with it. */
  lemma {:induction false} FailingMessagesMembership(validators: seq<Validator>, ui: UiState, m: string)
    ensures m in FailingMessages(validators, ui) <==>
            exists i :: 0 <= i < |validators| && !Evaluate(validators[i], ui).valid && Evaluate(validators[i], ui).message == m
  {
    var rs := Outcomes(validators, ui);
    FailuresMembership(rs, m);
    if exists i :: 0 <= i < |rs| && !rs[i].valid && rs[i].message == m {
      var i :| 0 <= i < |rs| && !rs[i].valid && rs[i].message == m;
      assert rs[i] == Evaluate(validators[i], ui);
    }
  }

  lemma {:induction false} NoFailuresIff(results: seq<ValidationResult>)
    ensures Failures(results) == [] <==> forall i :: 0 <= i < |results| ==> results[i].valid
    decreases |results|
  {
    if results != [] {
      var k := |results| - 1;
      NoFailuresIff(results[..k]);
      assert forall i :: 0 <= i < k ==> results[..k][i] == results[i];
    }
  }

  /** No failure is reported exactly when every registered validator holds. */
  lemma {:induction false} NoFailuresIffAllValid(validators: seq<Validator>, ui: UiState)
    ensures FailingMessages(validators, ui) == [] <==> forall i :: 0 <= i < |validators| ==> Evaluate(validators[i], ui).valid
  {
    NoFailuresIff(Outcomes(validators, ui));
  }

  /** The inputs after a log of callbacks: each registration is stored under its name. */
  function Registered(ic: InputComponents, events: seq<Event>): InputComponents
    decreases |events|
  {
    if events == [] then ic
    else
      var k := |events| - 1;
      var before := Registered(ic, events[..k]);
      if events[k].InputCreated? then Put(before, events[k].name, events[k].component) else before
  }

  /** The component last registered under `name` in a log of callbacks. */
  function LastRegistration(events: seq<Event>, name: string): Option<Widget>
    decreases |events|
  {
    if events == [] then None
    else
      var e := events[|events| - 1];
      if e.InputCreated? && e.name == name then Some(e.component) else LastRegistration(events[..|events| - 1], name)
  }

  /**
   * A name maps to the component registered last under it; a name never
   * registered keeps what it had.
   */
  lemma {:induction false} RegisteredLookup(ic: InputComponents, events: seq<Event>, name: string)
    ensures Lookup(Registered(ic, events), name) ==
            if LastRegistration(events, name).Some? then LastRegistration(events, name) else Lookup(ic, name)
    decreases |events|
  {
    if events != [] {
      RegisteredLookup(ic, events[..|events| - 1], name);
    }
  }

  /** Registration keeps the names of the inputs distinct. */
  lemma {:induction false} RegisteredKeepsNamesDistinct(ic: InputComponents, events: seq<Event>)
    requires DistinctNames(ic)
    ensures DistinctNames(Registered(ic, events))
    decreases |events|
  {
    if events != [] {
      var k := |events| - 1;
      RegisteredKeepsNamesDistinct(ic, events[..k]);
      if events[k].InputCreated? {
        PutKeepsNamesDistinct(Registered(ic, events[..k]), events[k].name, events[k].component);
      }
    }
  }

  lemma {:induction false} EventsSnoc(events: seq<Event>, i: nat)
    requires i < |events|
    ensures ValidatorsOf(events[..i + 1]) == ValidatorsOf(events[..i]) + ValidatorsOf([events[i]])
    ensures DisposablesOf(events[..i + 1]) == DisposablesOf(events[..i]) + DisposablesOf([events[i]])
    ensures events[..i + 1][..i] == events[..i]
    ensures forall ic :: Registered(ic, events[..i + 1]) == Registered(Registered(ic, events[..i]), [events[i]])
  {
    assert events[..i + 1] == events[..i] + [events[i]];
    ValidatorsOfAppend(events[..i], [events[i]]);
    DisposablesOfAppend(events[..i], [events[i]]);
  }

  class DeploymentInputDialog {
    const dialogInfo: DialogInfo
    /** The host dialog: the tabs are shown in it and its message line is written by the close validator. */
    const dialogObject: Container
    /** The platform's line break. */
    const eol: string
    var okButtonLabel: string
    var inputComponents: InputComponents
    var validators: seq<Validator>
    var toDispose: seq<Disposable>
    var closeValidatorRegistered: bool

    ghost predicate Valid()
      reads this
    {
      DistinctNames(inputComponents)
    }

    constructor (dialogInfo: DialogInfo, eol: string)
      ensures this.dialogInfo == dialogInfo && this.eol == eol && fresh(dialogObject)
      ensures dialogObject.message.None? && okButtonLabel == OkButtonText
      ensures inputComponents == [] && validators == [] && toDispose == [] && !closeValidatorRegistered
      ensures Valid()
    {
      this.dialogInfo := dialogInfo;
      this.eol := eol;
      dialogObject := new Container(None);
      okButtonLabel := OkButtonText;
      inputComponents := [];
      validators := [];
      toDispose := [];
      closeValidatorRegistered := false;
    }

    /** `onNewDisposableCreated`: the disposable is kept for disposal with the dialog. */
    method OnNewDisposableCreated(disposable: Disposable)
      modifies this
      ensures toDispose == old(toDispose) + [disposable]
      ensures inputComponents == old(inputComponents) && validators == old(validators)
      ensures okButtonLabel == old(okButtonLabel) && closeValidatorRegistered == old(closeValidatorRegistered)
    {
      toDispose := toDispose + [disposable];
    }

    /** `onNewInputComponentCreated`: the component is stored under its name, replacing an earlier one. */
    method OnNewInputComponentCreated(name: string, component: Widget)
      requires Valid()
      modifies this
      ensures Valid()
      ensures inputComponents == Put(old(inputComponents), name, component)
      ensures toDispose == old(toDispose) && validators == old(validators)
      ensures okButtonLabel == old(okButtonLabel) && closeValidatorRegistered == old(closeValidatorRegistered)
    {
      PutKeepsNamesDistinct(inputComponents, name, component);
      inputComponents := Put(inputComponents, name, component);
    }

    /** `onNewValidatorCreated`: the validator joins the list the close validator runs. */
    method OnNewValidatorCreated(validator: Validator)
      modifies this
      ensures validators == old(validators) + [validator]
      ensures inputComponents == old(inputComponents) && toDispose == old(toDispose)
      ensures okButtonLabel == old(okButtonLabel) && closeValidatorRegistered == old(closeValidatorRegistered)
    {
      validators := validators + [validator];
    }

    /** One callback of the form engine, routed to the matching handler. */
    method Deliver(e: Event)
      requires Valid()
      modifies this
      ensures Valid()
      ensures validators == old(validators) + ValidatorsOf([e])
      ensures toDispose == old(toDispose) + DisposablesOf([e])
      ensures inputComponents == Registered(old(inputComponents), [e])
      ensures okButtonLabel == old(okButtonLabel) && closeValidatorRegistered == old(closeValidatorRegistered)
    {
      SingleEvent(e);
      match e {
        case InputCreated(name, component) =>
          OnNewInputComponentCreated(name, component);
        case ValidatorCreated(validator) =>
          OnNewValidatorCreated(validator);
        case DisposableCreated(disposable) =>
          OnNewDisposableCreated(disposable);
      }
    }

    /**
     * `initialize`: the callbacks the form engine makes while laying out the
     * dialog's tabs are delivered in order, and the close validator is
     * registered. `events` stands for the callbacks that `ProcessFields`
     * emits for the dialog's sections when the deferred `registerContent`
     * renders them; that link is not stated here.
     */
    method Initialize(events: seq<Event>)
      requires Valid()
      modifies this
      ensures Valid()
      ensures validators == old(validators) + ValidatorsOf(events)
      ensures toDispose == old(toDispose) + DisposablesOf(events)
      ensures inputComponents == Registered(old(inputComponents), events)
      ensures closeValidatorRegistered && okButtonLabel == old(okButtonLabel)
    {
      ghost var validators0, toDispose0, inputs0 := validators, toDispose, inputComponents;
      var i := 0;
      while i < |events|
        invariant 0 <= i <= |events|
        invariant Valid()
        invariant validators == validators0 + ValidatorsOf(events[..i])
        invariant toDispose == toDispose0 + DisposablesOf(events[..i])
        invariant inputComponents == Registered(inputs0, events[..i])
        invariant okButtonLabel == old(okButtonLabel)
      {
        EventsSnoc(events, i);
        Deliver(events[i]);
        assert validators == validators0 + (ValidatorsOf(events[..i]) + ValidatorsOf([events[i]]));
        assert toDispose == toDispose0 + (DisposablesOf(events[..i]) + DisposablesOf([events[i]]));
        i := i + 1;
      }
      assert events[..i] == events;
      closeValidatorRegistered := true;
    }

    /**
     * The close validator: every validator runs, in registration order;
     * the failing messages are shown joined by line breaks at error level,
     * or the message is cleared; the dialog may close iff none failed.
     */
    method CloseValidator(ui: UiState) returns (ok: bool)
      modifies dialogObject
      ensures var failures := FailingMessages(validators, ui);
        && (ok <==> failures == [])
        && dialogObject.message == if failures != [] then Some(DialogMessage(Join(failures, eol), Some(Error)))
                                   else Some(DialogMessage("", None))
    {
      var messages: seq<string> := [];
      ghost var outcomes := Outcomes(validators, ui);
      var i := 0;
      while i < |validators|
        invariant 0 <= i <= |validators|
        invariant messages == Failures(outcomes[..i])
      {
        var result := Evaluate(validators[i], ui);
        assert outcomes[..i + 1][..i] == outcomes[..i];
        if !result.valid {
          messages := messages + [result.message];
        }
        i := i + 1;
      }
      assert outcomes[..i] == outcomes;
      if |messages| > 0 {
        dialogObject.message := Some(DialogMessage(Join(messages, eol), Some(Error)));
      } else {
        dialogObject.message := Some(DialogMessage("", None));
      }
      ok := |messages| == 0;
    }

    /**
     * `onComplete`: the inputs are read into a fresh model; a notebook-based
     * dialog exports the model as environment variables and launches its
     * notebook, any other runs its command with the model.
     */
    method OnComplete(ui: UiState) returns (completion: Completion, model: Model)
      ensures fresh(model)
      ensures var k := FirstUnreadable(inputComponents, ui);
        && model.properties == ExtractedMap(inputComponents[..k], ui)
        && (k < |inputComponents| ==> completion == Failed(UnknownInputTypeMessage(inputComponents[k].0)) && !model.environmentExported)
        && (k == |inputComponents| ==>
              match dialogInfo.kind
              case NotebookBased(notebook) => completion == LaunchNotebook(notebook) && model.environmentExported
              case CommandBased(command) => completion == ExecuteCommand(command, model) && !model.environmentExported)
    {
      model := new Model();
      var error := SetModelValues(inputComponents, ui, model);
      assert map[] + ExtractedMap(inputComponents[..FirstUnreadable(inputComponents, ui)], ui)
          == ExtractedMap(inputComponents[..FirstUnreadable(inputComponents, ui)], ui);
      if error.Some? {
        completion := Failed(error.value);
        return;
      }
      match dialogInfo.kind
      case NotebookBased(notebook) =>
        model.SetEnvironmentVariables();
        completion := LaunchNotebook(notebook);
      case CommandBased(command) =>
        completion := ExecuteCommand(command, model);
    }
  }

  /** Every failing validator's message is shown in the dialog after a refused close. */
  lemma {:induction false} FailureIsShown(validators: seq<Validator>, ui: UiState, eol: string, i: nat)
    requires i < |validators| && !Evaluate(validators[i], ui).valid
    ensures FailingMessages(validators, ui) != []
    ensures Contains(Join(FailingMessages(validators, ui), eol), Evaluate(validators[i], ui).message)
  {
    var failures := FailingMessages(validators, ui);
    var m := Evaluate(validators[i], ui).message;
    FailingMessagesMembership(validators, ui, m);
    var k :| 0 <= k < |failures| && failures[k] == m;
    JoinContainsPart(failures, eol, k);
  }

  /**
   * A dialog whose password field asks for confirmation refuses to close
   * while the two boxes differ, and shows the mismatch message.
   */
  lemma {:induction false} PasswordMismatchBlocksClose(f: FieldInfo, now: string, before: seq<Validator>, after: seq<Validator>,
                                    ui: UiState, eol: string)
    requires f.fieldType == Password || f.fieldType == SqlPassword
    requires IsTrue(f.confirmationRequired)
    requires InputValue(Current(PasswordInputOf(f), ui)) != InputValue(Current(ConfirmationInputOf(f), ui))
    ensures var validators := before + ValidatorsOf(ProcessField(f, now).value.events) + after;
      && FailingMessages(validators, ui) != []
      && Contains(Join(FailingMessages(validators, ui), eol), PasswordMismatchMessage(f.labelText))
  {
    var own := ValidatorsOf(ProcessField(f, now).value.events);
    ConfirmationRuleRegistered(f, now);
    MismatchIsShown(before + own + after, f, ui, eol);
  }

  lemma {:induction false} MismatchIsShown(validators: seq<Validator>, f: FieldInfo, ui: UiState, eol: string)
    requires ConfirmationRuleOf(f) in validators
    requires InputValue(Current(PasswordInputOf(f), ui)) != InputValue(Current(ConfirmationInputOf(f), ui))
    ensures FailingMessages(validators, ui) != []
    ensures Contains(Join(FailingMessages(validators, ui), eol), PasswordMismatchMessage(f.labelText))
  {
    var j :| 0 <= j < |validators| && validators[j] == ConfirmationRuleOf(f);
    FailureIsShown(validators, ui, eol, j);
  }
}
