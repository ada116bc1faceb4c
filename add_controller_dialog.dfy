/**
 * The add-controller dialog of the big data cluster extension
 * (extensions/big-data-cluster/src/bigDataCluster/dialog/addControllerDialog.ts):
 * the dialog model that fills the prefilled values, offers the two
 * authentication categories, checks basic credentials, fetches the
 * controller's endpoints and adds the controller unless cancelled; and the
 * dialog around it, which enables the credential boxes for basic
 * authentication only and turns a thrown error into an error message.
 *
 * `onComplete` is asynchronous. Each `await` splits it: the part before it
 * returns a `Progress` that stands for the suspended rest, and the caller
 * resumes it with what the awaited call settled to. A cancellation may come
 * in between, so the cancel flag is read when each part runs.
 */
module AddControllerDialogs {
  import opened Wrappers
  import opened JsValues
  import opened Azdata

  const BasicAuthDisplay := "Basic"
  const IntegratedAuthDisplay := "Windows Authentication"
  const UsernameRequiredMessage := "Username is required"
  const PasswordRequiredMessage := "Password is required"
  const DialogTitle := "Add New Controller"
  const AddButtonText := "Add"
  const CancelButtonText := "Cancel"

  // ---------------------------------------------------------------------
  // Authentication categories

  /** `getAuthCategory`: the name is kept; only "basic" is shown as Basic, any other name as Windows Authentication. */
  function GetAuthCategory(name: string): (c: CategoryValue)
    ensures c.name == name
  {
    if name == "basic" then CategoryValue(name, BasicAuthDisplay) else CategoryValue(name, IntegratedAuthDisplay)
  }

  /** A category is displayed as Basic exactly when its name is "basic". */
  lemma {:induction false} AuthCategoryDisplay(name: string)
    ensures GetAuthCategory(name).displayName == BasicAuthDisplay <==> name == "basic"
    ensures name != "basic" ==> GetAuthCategory(name).displayName == IntegratedAuthDisplay
  {
    assert BasicAuthDisplay[0] != IntegratedAuthDisplay[0];
  }

  /** The categories the dialog offers: basic, then integrated. */
  function DefaultAuthCategories(): (cs: seq<CategoryValue>)
    ensures |cs| == 2
    ensures cs[0] == CategoryValue("basic", BasicAuthDisplay)
    ensures cs[1] == CategoryValue("integrated", IntegratedAuthDisplay)
  {
    [GetAuthCategory("basic"), GetAuthCategory("integrated")]
  }

  // ---------------------------------------------------------------------
  // Values the dialog model works with

  /** The connection details a controller tree node carries; any of them may be undefined. */
  datatype ControllerInfo = ControllerInfo(url: Option<string>, auth: Option<string>, username: Option<string>,
                                           password: Option<string>, rememberPassword: Option<bool>)

  /** The prefilled values of the dialog. */
  datatype Prefill = Prefill(url: Option<string>, auth: CategoryValue, username: Option<string>,
                             password: Option<string>, rememberPassword: Option<bool>)

  /** The authentication a node suggests, "basic" when it has none. */
  function NodeAuth(node: Option<ControllerInfo>): string {
    var auth := if node.Some? then node.value.auth else None;
    if Truthy(auth) then auth.value else "basic"
  }

  /**
   * The constructor's defaulting: a given (truthy) value wins, otherwise the
   * node's; a missing category is made from the node's authentication or
   * "basic".
   */
  function Prefilled(url: Option<string>, auth: Option<CategoryValue>, username: Option<string>,
                     password: Option<string>, rememberPassword: Option<bool>, node: Option<ControllerInfo>): (p: Prefill)
    ensures Truthy(url) ==> p.url == url
    ensures !Truthy(url) ==> p.url == (if node.Some? then node.value.url else None)
    ensures Truthy(username) ==> p.username == username
    ensures !Truthy(username) ==> p.username == (if node.Some? then node.value.username else None)
    ensures Truthy(password) ==> p.password == password
    ensures !Truthy(password) ==> p.password == (if node.Some? then node.value.password else None)
    ensures IsTrue(rememberPassword) ==> p.rememberPassword == Some(true)
    ensures !IsTrue(rememberPassword) ==> p.rememberPassword == (if node.Some? then node.value.rememberPassword else None)
    ensures auth.Some? ==> p.auth == auth.value
    ensures auth.None? ==> p.auth == GetAuthCategory(NodeAuth(node))
  {
    Prefill(Or(url, if node.Some? then node.value.url else None),
            if auth.Some? then auth.value else GetAuthCategory(NodeAuth(node)),
            Or(username, if node.Some? then node.value.username else None),
            Or(password, if node.Some? then node.value.password else None),
            BoolOr(rememberPassword, if node.Some? then node.value.rememberPassword else None))
  }

  /**
   * Without a given category, the prefilled one is among the offered
   * categories whenever the node's authentication is missing, "basic" or
   * "integrated".
   */
  lemma {:induction false} PrefilledAuthIsOffered(url: Option<string>, username: Option<string>, password: Option<string>,
                               rememberPassword: Option<bool>, node: Option<ControllerInfo>)
    requires node.Some? ==> node.value.auth in {None, Some(""), Some("basic"), Some("integrated")}
    ensures Prefilled(url, None, username, password, rememberPassword, node).auth in DefaultAuthCategories()
  {
    var cs := DefaultAuthCategories();
    if NodeAuth(node) == "basic" {
      assert GetAuthCategory(NodeAuth(node)) == cs[0];
    } else {
      assert GetAuthCategory(NodeAuth(node)) == cs[1];
    }
  }

  /** A value thrown by `onComplete`: a bare string, or an error object with a message. */
  datatype Thrown = ThrownString(text: string) | ThrownError(message: string)

  /** The text `validate` shows for a thrown value. */
  function ErrorText(e: Thrown): string {
    match e
    case ThrownString(text) => text
    case ThrownError(message) => message
  }

  /** The arguments of `onComplete`. */
  datatype ControllerRequest = ControllerRequest(url: Option<string>, auth: string, username: Option<string>,
                                                 password: Option<string>, rememberPassword: bool)

  /**
   * What `getEndPoints` resolves to: nothing, a response without an
   * endpoint list, or one with a list (which is truthy even when empty).
   */
  datatype EndpointsResponse = NoResponse | WithoutEndpoints | WithEndpoints(endPoints: seq<string>)

  /** Where `onComplete` stands: settled, or suspended at one of its two awaits. */
  datatype Progress =
    | Settled(outcome: Outcome<Thrown>)
    | AwaitingEndpoints(request: ControllerRequest)
    | AwaitingSave

  // ---------------------------------------------------------------------
  // The steps of `onComplete`

  /** The check made before anything is fetched: basic authentication needs a user name, then a password. */
  function CredentialsError(request: ControllerRequest): (r: Option<Thrown>)
    ensures r.None? <==> request.auth != "basic" || (Truthy(request.username) && Truthy(request.password))
    ensures request.auth == "basic" && !Truthy(request.username) ==> r == Some(ThrownError(UsernameRequiredMessage))
    ensures request.auth == "basic" && Truthy(request.username) && !Truthy(request.password) ==>
              r == Some(ThrownError(PasswordRequiredMessage))
  {
    if request.auth == "basic" then
      if !Truthy(request.username) then Some(ThrownError(UsernameRequiredMessage))
      else if !Truthy(request.password) then Some(ThrownError(PasswordRequiredMessage))
      else None
    else None
  }

  /** The catch block: an error escapes only while the model is not cancelled. */
  function Escaping(error: Thrown, canceled: bool): (o: Outcome<Thrown>)
    ensures o.Fail? <==> !canceled
    ensures o.Fail? ==> o.error == error
  {
    if canceled then Pass else Fail(error)
  }

  /** The part of `onComplete` up to fetching the endpoints. */
  function StartStep(request: ControllerRequest, canceled: bool): Progress {
    match CredentialsError(request)
    case Some(e) => Settled(Escaping(e, canceled))
    case None => AwaitingEndpoints(request)
  }

  /**
   * `onComplete` waits for the endpoints exactly when the credentials pass,
   * and it waits with the request it checked.
   */
  lemma {:induction false} OnlyCheckedRequestsWait(request: ControllerRequest, canceled: bool)
    ensures StartStep(request, canceled).AwaitingEndpoints? <==> CredentialsError(request).None?
    ensures StartStep(request, canceled).AwaitingEndpoints? ==> StartStep(request, canceled).request == request
  {
  }

  /** The response is one that makes the model add the controller. */
  predicate Adds(response: Result<EndpointsResponse, Thrown>, canceled: bool) {
    response.Ok? && response.value.WithEndpoints? && !canceled
  }

  /** The part after the endpoints arrive (or the fetch fails), up to saving the controllers. */
  function ResponseStep(response: Result<EndpointsResponse, Thrown>, canceled: bool): (p: Progress)
    ensures p.AwaitingSave? <==> Adds(response, canceled)
    ensures !p.AwaitingEndpoints?
  {
    match response
    case Err(e) => Settled(Escaping(e, canceled))
    case Ok(WithEndpoints(_)) => if canceled then Settled(Pass) else AwaitingSave
    case Ok(_) => Settled(Pass)
  }

  /** The part after the save settles. */
  function SaveStep(saved: Outcome<Thrown>, canceled: bool): Outcome<Thrown> {
    match saved
    case Pass => Pass
    case Fail(e) => Escaping(e, canceled)
  }

  /**
   * The outcome of a whole `onComplete` given what its two awaits settle
   * to, with the cancel flag as it stands when it starts (`c0`), when the
   * endpoints arrive (`c1`) and when the save settles (`c2`).
   */
  function AttemptOutcome(request: ControllerRequest, response: Result<EndpointsResponse, Thrown>,
                          saved: Outcome<Thrown>, c0: bool, c1: bool, c2: bool): Outcome<Thrown>
  {
    match StartStep(request, c0)
    case Settled(o) => o
    case _ =>
      match ResponseStep(response, c1)
      case Settled(o) => o
      case _ => SaveStep(saved, c2)
  }

  /** Whether a whole `onComplete` adds the controller to the tree. */
  predicate AttemptAdds(request: ControllerRequest, response: Result<EndpointsResponse, Thrown>, c0: bool, c1: bool) {
    StartStep(request, c0).AwaitingEndpoints? && Adds(response, c1)
  }

  /** The cancel flag is only ever set. */
  predicate Monotone(c0: bool, c1: bool, c2: bool) {
    (c0 ==> c1) && (c1 ==> c2)
  }

  /** With basic authentication an empty user name is reported first, whatever the password. */
  lemma {:induction false} BasicAuthRequiresUsername(request: ControllerRequest, response: Result<EndpointsResponse, Thrown>,
                                  saved: Outcome<Thrown>, c0: bool, c1: bool, c2: bool)
    requires request.auth == "basic" && !Truthy(request.username)
    ensures AttemptOutcome(request, response, saved, c0, c1, c2) == Escaping(ThrownError(UsernameRequiredMessage), c0)
    ensures !AttemptAdds(request, response, c0, c1)
  {
  }

  /** With basic authentication and a user name, an empty password is reported. */
  lemma {:induction false} BasicAuthRequiresPassword(request: ControllerRequest, response: Result<EndpointsResponse, Thrown>,
                                  saved: Outcome<Thrown>, c0: bool, c1: bool, c2: bool)
    requires request.auth == "basic" && Truthy(request.username) && !Truthy(request.password)
    ensures AttemptOutcome(request, response, saved, c0, c1, c2) == Escaping(ThrownError(PasswordRequiredMessage), c0)
    ensures !AttemptAdds(request, response, c0, c1)
  {
  }

  /** Other authentication is not checked: the credentials do not change the outcome or whether the controller is added. */
  lemma {:induction false} OtherAuthIsNotChecked(request: ControllerRequest, username: Option<string>, password: Option<string>,
                              response: Result<EndpointsResponse, Thrown>, saved: Outcome<Thrown>, c0: bool, c1: bool, c2: bool)
    requires request.auth != "basic"
    ensures var other := request.(username := username, password := password);
      && StartStep(request, c0) == AwaitingEndpoints(request)
      && AttemptOutcome(other, response, saved, c0, c1, c2) == AttemptOutcome(request, response, saved, c0, c1, c2)
      && AttemptAdds(other, response, c0, c1) == AttemptAdds(request, response, c0, c1)
  {
  }

  /**
   * Once cancelled, nothing escapes `onComplete`; a response that arrives
   * after the cancellation adds nothing.
   */
  lemma {:induction false} CancelledAttemptIsSwallowed(request: ControllerRequest, response: Result<EndpointsResponse, Thrown>,
                                    saved: Outcome<Thrown>, c0: bool, c1: bool, c2: bool)
    requires Monotone(c0, c1, c2)
    ensures c0 ==> AttemptOutcome(request, response, saved, c0, c1, c2) == Pass
    ensures c1 ==> !AttemptAdds(request, response, c0, c1)
    ensures c2 ==> AttemptOutcome(request, response, saved, c0, c1, c2) == Pass ||
                   (!c0 && CredentialsError(request).Some?) || (!c1 && response.Err?)
  {
  }

  /**
   * Without a cancellation, `onComplete` fails exactly when the credentials
   * are refused, the fetch fails, or the save after a response with
   * endpoints fails, and it adds the controller exactly when the
   * credentials pass and the response has endpoints.
   */
  lemma {:induction false} UncancelledAttempt(request: ControllerRequest, response: Result<EndpointsResponse, Thrown>,
                           saved: Outcome<Thrown>)
    ensures var o := AttemptOutcome(request, response, saved, false, false, false);
      && (o.Fail? <==> CredentialsError(request).Some? || response.Err? ||
                       (CredentialsError(request).None? && response.Ok? && response.value.WithEndpoints? && saved.Fail?))
      && (o.Fail? ==> o.error == if CredentialsError(request).Some? then CredentialsError(request).value
                                 else if response.Err? then response.error else saved.error)
      && (AttemptAdds(request, response, false, false) <==>
            CredentialsError(request).None? && response.Ok? && response.value.WithEndpoints?)
  {
  }

  /** An empty endpoint list is still a list: the controller is added. */
  lemma {:induction false} EmptyEndpointListAdds(request: ControllerRequest)
    requires CredentialsError(request).None?
    ensures AttemptAdds(request, Ok(WithEndpoints([])), false, false)
    ensures !AttemptAdds(request, Ok(WithoutEndpoints), false, false) && !AttemptAdds(request, Ok(NoResponse), false, false)
  {
  }

  // ---------------------------------------------------------------------
  // Objects

  /** A controller node of the tree: the connection details it carries, and how often it was asked to refresh. */
  class ControllerNode {
    const info: ControllerInfo
    var refreshCount: nat

    constructor (info: ControllerInfo)
      ensures this.info == info && refreshCount == 0
    {
      this.info := info;
      refreshCount := 0;
    }

    method Refresh()
      modifies this
      ensures refreshCount == old(refreshCount) + 1
    {
      refreshCount := refreshCount + 1;
    }
  }

  /** The node objects an optional node stands for. */
  function NodeObjects(node: Option<ControllerNode>): set<ControllerNode> {
    if node.Some? then {node.value} else {}
  }

  function NodeInfo(node: Option<ControllerNode>): Option<ControllerInfo> {
    if node.Some? then Some(node.value.info) else None
  }

  /**
   * The controller tree's provider, as far as this dialog uses it: the
   * controllers it was asked to add, in order, and how many saves were
   * started.
   */
  class ControllerTreeDataProvider {
    var added: seq<ControllerRequest>
    var saveCount: nat

    constructor ()
      ensures added == [] && saveCount == 0
    {
      added := [];
      saveCount := 0;
    }

    method AddController(request: ControllerRequest)
      modifies this
      ensures added == old(added) + [request] && saveCount == old(saveCount)
    {
      added := added + [request];
    }

    method SaveControllers()
      modifies this
      ensures saveCount == old(saveCount) + 1 && added == old(added)
    {
      saveCount := saveCount + 1;
    }
  }

  class AddControllerDialogModel {
    const treeDataProvider: ControllerTreeDataProvider
    const node: Option<ControllerNode>
    var prefill: Prefill
    var canceled: bool
    /** The lazily built category list; undefined until first asked for. */
    var authTypes: Option<seq<CategoryValue>>

    ghost predicate Valid()
      reads this
    {
      authTypes.Some? ==> authTypes.value == DefaultAuthCategories()
    }

    /** The given values, with the missing ones taken from the node. */
    constructor (treeDataProvider: ControllerTreeDataProvider, node: Option<ControllerNode>, prefilledUrl: Option<string>,
                 prefilledAuth: Option<CategoryValue>, prefilledUsername: Option<string>, prefilledPassword: Option<string>,
                 prefilledRememberPassword: Option<bool>)
      ensures this.treeDataProvider == treeDataProvider && this.node == node
      ensures prefill == Prefilled(prefilledUrl, prefilledAuth, prefilledUsername, prefilledPassword,
                                   prefilledRememberPassword, NodeInfo(node))
      ensures !canceled && authTypes.None?
      ensures Valid()
    {
      this.treeDataProvider := treeDataProvider;
      this.node := node;
      prefill := Prefilled(prefilledUrl, prefilledAuth, prefilledUsername, prefilledPassword,
                           prefilledRememberPassword, NodeInfo(node));
      canceled := false;
      authTypes := None;
    }

    /** `authCategories`: built on first use, the same list ever after. */
    method AuthCategories() returns (categories: seq<CategoryValue>)
      requires Valid()
      modifies this
      ensures Valid()
      ensures categories == DefaultAuthCategories()
      ensures authTypes == Some(categories)
      ensures prefill == old(prefill) && canceled == old(canceled)
    {
      if authTypes.None? {
        authTypes := Some(DefaultAuthCategories());
      }
      categories := authTypes.value;
    }

    /** `onComplete` up to its first await: the credential check, then the fetch is started. */
    method OnComplete(request: ControllerRequest) returns (progress: Progress)
      ensures progress == StartStep(request, canceled)
    {
      if request.auth == "basic" {
        if !Truthy(request.username) {
          progress := Settled(Escaping(ThrownError(UsernameRequiredMessage), canceled));
          return;
        } else if !Truthy(request.password) {
          progress := Settled(Escaping(ThrownError(PasswordRequiredMessage), canceled));
          return;
        }
      }
      progress := AwaitingEndpoints(request);
    }

    /**
     * `onComplete` once the endpoints arrive: with endpoints and no
     * cancellation the controller is added and a save started; a late
     * response is ignored; a failed fetch escapes unless cancelled.
     */
    method OnEndpointsResponse(pending: Progress, response: Result<EndpointsResponse, Thrown>)
      returns (progress: Progress)
      requires pending.AwaitingEndpoints? && CredentialsError(pending.request).None?
      modifies treeDataProvider
      ensures progress == ResponseStep(response, canceled)
      ensures treeDataProvider.added ==
              old(treeDataProvider.added) + (if Adds(response, canceled) then [pending.request] else [])
      ensures treeDataProvider.saveCount == old(treeDataProvider.saveCount) + (if Adds(response, canceled) then 1 else 0)
    {
      if response.Err? {
        progress := Settled(Escaping(response.error, canceled));
        return;
      }
      if response.value.WithEndpoints? {
        if canceled {
          progress := Settled(Pass);
          return;
        }
        treeDataProvider.AddController(pending.request);
        treeDataProvider.SaveControllers();
        progress := AwaitingSave;
      } else {
        progress := Settled(Pass);
      }
    }

    /** `onComplete` once the save settles: a failed save escapes unless cancelled. */
    method OnSaveResult(saved: Outcome<Thrown>) returns (outcome: Outcome<Thrown>)
      ensures outcome == SaveStep(saved, canceled)
    {
      if saved.Fail? && !canceled {
        outcome := saved;
      } else {
        outcome := Pass;
      }
    }

    /** `onCancel`: the model is cancelled and the node, if any, refreshed. */
    method OnCancel()
      modifies this, NodeObjects(node)
      ensures canceled
      ensures prefill == old(prefill) && authTypes == old(authTypes)
      ensures node.Some? ==> node.value.refreshCount == old(node.value.refreshCount) + 1
    {
      canceled := true;
      if node.Some? {
        node.value.Refresh();
      }
    }
  }

  /** A text input of the dialog. */
  class TextBox {
    const placeHolder: string
    const masked: bool
    var value: Option<string>
    var enabled: bool

    constructor (placeHolder: string, masked: bool, value: Option<string>)
      ensures this.placeHolder == placeHolder && this.masked == masked && this.value == value && enabled
    {
      this.placeHolder := placeHolder;
      this.masked := masked;
      this.value := value;
      enabled := true;
    }
  }

  /** The authentication drop-down: the offered categories and the chosen one. */
  class AuthDropDown {
    const values: seq<CategoryValue>
    var value: CategoryValue

    constructor (values: seq<CategoryValue>, value: CategoryValue)
      ensures this.values == values && this.value == value
    {
      this.values := values;
      this.value := value;
    }
  }

  class CheckBox {
    const caption: string
    var checked: Option<bool>
    var enabled: bool

    constructor (caption: string, checked: Option<bool>)
      ensures this.caption == caption && this.checked == checked && enabled
    {
      this.caption := caption;
      this.checked := checked;
      enabled := true;
    }
  }

  /** How a close attempt stands: decided, or waiting on the model's `onComplete`. */
  datatype Validation = Decided(ok: bool) | Waiting(progress: Progress)

  class AddControllerDialog {
    const model: AddControllerDialogModel
    const dialog: Container
    const title: string
    const urlInputBox: TextBox
    const authDropdown: AuthDropDown
    const usernameInputBox: TextBox
    const passwordInputBox: TextBox
    const rememberPwCheckBox: CheckBox
    var okButtonLabel: string
    var cancelButtonLabel: string

    /** The dialog's three text boxes are distinct objects. */
    ghost predicate Valid() {
      usernameInputBox != passwordInputBox && usernameInputBox != urlInputBox && passwordInputBox != urlInputBox
    }

    /**
     * `createDialog` with its content rendered: each box starts from the
     * model's prefilled value, the drop-down offers the model's categories,
     * and the buttons read Add and Cancel.
     */
    constructor (model: AddControllerDialogModel)
      requires model.Valid()
      modifies model
      ensures Valid() && model.Valid() && this.model == model && fresh(dialog)
      ensures title == DialogTitle && okButtonLabel == AddButtonText && cancelButtonLabel == CancelButtonText
      ensures dialog.message.None?
      ensures urlInputBox.value == model.prefill.url && urlInputBox.placeHolder == "url" && !urlInputBox.masked
      ensures authDropdown.values == DefaultAuthCategories() && authDropdown.value == model.prefill.auth
      ensures usernameInputBox.value == model.prefill.username && !usernameInputBox.masked
      ensures passwordInputBox.value == model.prefill.password && passwordInputBox.masked
      ensures rememberPwCheckBox.checked == model.prefill.rememberPassword
      ensures usernameInputBox.enabled && passwordInputBox.enabled && rememberPwCheckBox.enabled
      ensures model.prefill == old(model.prefill) && model.canceled == old(model.canceled)
    {
      this.model := model;
      dialog := new Container(None);
      title := DialogTitle;
      urlInputBox := new TextBox("url", false, model.prefill.url);
      var categories := model.AuthCategories();
      authDropdown := new AuthDropDown(categories, model.prefill.auth);
      usernameInputBox := new TextBox("username", false, model.prefill.username);
      passwordInputBox := new TextBox("password", true, model.prefill.password);
      rememberPwCheckBox := new CheckBox("Remember Password", model.prefill.rememberPassword);
      okButtonLabel := AddButtonText;
      cancelButtonLabel := CancelButtonText;
    }

    /** `authValue`: the name of the chosen category. */
    function AuthValue(): string
      reads authDropdown
    {
      authDropdown.value.name
    }

    /** The arguments `validate` hands to `onComplete`, read from the boxes. */
    function Request(): (r: ControllerRequest)
      reads urlInputBox, authDropdown, usernameInputBox, passwordInputBox, rememberPwCheckBox
      ensures r.auth == AuthValue()
      ensures r.rememberPassword <==> IsTrue(rememberPwCheckBox.checked)
    {
      ControllerRequest(urlInputBox.value, AuthValue(), usernameInputBox.value, passwordInputBox.value,
                        IsTrue(rememberPwCheckBox.checked))
    }

    /**
     * `onAuthChanged`: the credential boxes and the remember-password box
     * are enabled exactly for basic authentication; otherwise the user name
     * and the password are cleared.
     */
    method OnAuthChanged()
      requires Valid()
      modifies usernameInputBox, passwordInputBox, rememberPwCheckBox
      ensures var isBasic := AuthValue() == "basic";
        && usernameInputBox.enabled == isBasic && passwordInputBox.enabled == isBasic
        && rememberPwCheckBox.enabled == isBasic
        && usernameInputBox.value == (if isBasic then old(usernameInputBox.value) else Some(""))
        && passwordInputBox.value == (if isBasic then old(passwordInputBox.value) else Some(""))
      ensures rememberPwCheckBox.checked == old(rememberPwCheckBox.checked)
    {
      var isBasic := AuthValue() == "basic";
      usernameInputBox.enabled := isBasic;
      passwordInputBox.enabled := isBasic;
      rememberPwCheckBox.enabled := isBasic;
      if !isBasic {
        usernameInputBox.value := Some("");
        passwordInputBox.value := Some("");
      }
    }

    /** The end of `validate`: a thrown value becomes an error message and refuses the close. */
    method Settle(outcome: Outcome<Thrown>) returns (ok: bool)
      modifies dialog
      ensures ok <==> outcome.Pass?
      ensures outcome.Fail? ==> dialog.message == Some(DialogMessage(ErrorText(outcome.error), Some(Error)))
      ensures outcome.Pass? ==> dialog.message == old(dialog.message)
    {
      if outcome.Fail? {
        dialog.message := Some(DialogMessage(ErrorText(outcome.error), Some(Error)));
        ok := false;
      } else {
        ok := true;
      }
    }

    /** `validate` up to the model's first await. */
    method Validate() returns (v: Validation)
      modifies dialog
      ensures var progress := StartStep(Request(), model.canceled);
        && (progress.Settled? ==> v == Decided(progress.outcome.Pass?))
        && (progress.Settled? && progress.outcome.Fail? ==>
              dialog.message == Some(DialogMessage(ErrorText(progress.outcome.error), Some(Error))))
        && (progress.Settled? && progress.outcome.Pass? ==> dialog.message == old(dialog.message))
        && (!progress.Settled? ==> v == Waiting(progress) && dialog.message == old(dialog.message))
    {
      var progress := model.OnComplete(Request());
      if progress.Settled? {
        var ok := Settle(progress.outcome);
        v := Decided(ok);
      } else {
        v := Waiting(progress);
      }
    }

    /** `validate` once the endpoints arrive, continuing the request `Validate` left waiting. */
    method ValidateWithEndpoints(pending: Progress, response: Result<EndpointsResponse, Thrown>)
      returns (v: Validation)
      requires pending.AwaitingEndpoints? && CredentialsError(pending.request).None?
      modifies dialog, model.treeDataProvider
      ensures var progress := ResponseStep(response, model.canceled);
        && (progress.Settled? ==> v == Decided(progress.outcome.Pass?))
        && (progress.Settled? && progress.outcome.Fail? ==>
              dialog.message == Some(DialogMessage(ErrorText(progress.outcome.error), Some(Error))))
        && (progress.Settled? && progress.outcome.Pass? ==> dialog.message == old(dialog.message))
        && (!progress.Settled? ==> v == Waiting(progress) && dialog.message == old(dialog.message))
      ensures model.treeDataProvider.added ==
              old(model.treeDataProvider.added) + (if Adds(response, model.canceled) then [pending.request] else [])
      ensures model.treeDataProvider.saveCount ==
              old(model.treeDataProvider.saveCount) + (if Adds(response, model.canceled) then 1 else 0)
    {
      var progress := model.OnEndpointsResponse(pending, response);
      if progress.Settled? {
        var ok := Settle(progress.outcome);
        v := Decided(ok);
      } else {
        v := Waiting(progress);
      }
    }

    /** `validate` once the save settles. */
    method ValidateWithSave(saved: Outcome<Thrown>) returns (ok: bool)
      modifies dialog
      ensures ok <==> SaveStep(saved, model.canceled).Pass?
      ensures !ok ==> dialog.message == Some(DialogMessage(ErrorText(saved.error), Some(Error)))
      ensures ok ==> dialog.message == old(dialog.message)
    {
      var outcome := model.OnSaveResult(saved);
      ok := Settle(outcome);
    }

    /** `cancel`: the model is cancelled. */
    method Cancel()
      modifies model, NodeObjects(model.node)
      ensures model.canceled
      ensures model.prefill == old(model.prefill) && model.authTypes == old(model.authTypes)
      ensures model.node.Some? ==> model.node.value.refreshCount == old(model.node.value.refreshCount) + 1
    {
      model.OnCancel();
    }
  }
}
