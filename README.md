# Deployment form engine and two dialogs, modelled in Dafny

This project models four pieces of an IDE extension ecosystem:

- **The declarative form engine of the resource-deployment wizards**
  (`extensions/resource-deployment/src/ui/modelViewUtils.ts`). It covers
  the SQL Server password rule, the live withdrawal of a validation message,
  and the per-kind field processors with their registration callbacks. It
  also covers `processFields` and `createSection`, with their width cascade,
  spacers and collapse defaults, and the extraction of input values into
  the deployment model.
- **The deployment input dialog**
  (`extensions/resource-deployment/src/ui/deploymentInputDialog.ts`). This
  is a class whose callbacks collect validators, disposables and input
  components. Its close validator runs every validator and reports the
  failures. Its completion step fills a model and either launches a notebook
  or runs a command.
- **The add-controller dialog of the big data cluster extension**
  (`extensions/big-data-cluster/src/bigDataCluster/dialog/addControllerDialog.ts`).
  The dialog model fills its prefilled values and caches its authentication
  categories. It checks basic credentials and, unless cancelled, adds the
  controller once its endpoints arrive. The dialog enables the credential
  boxes only for basic authentication, and turns a thrown error into an
  error message.
- **The project-tree contract of the SQL database projects extension**
  (`extensions/sql-database-projects/src/test/projectTree.test.ts`). Nodes
  are ordered folders first, then by URI path. A folder's children are the
  entries below it, each once. The root lists "Data Sources" and "Database
  References" first.

Modules: `Wrappers` (Option/Result/Outcome), `JsValues` (JavaScript
truthiness, `||`, string conversion of `undefined`), `Strings` (`includes`,
first-occurrence `replace`, `join`, ASCII `toUpperCase`, order on characters),
`Azdata` (dialog message, message container, category value),
`ModelViewUtils`, `DeploymentInputDialogs`, `AddControllerDialogs` and
`ProjectTree`.

How the host is represented:

- **Widgets.** The host builds widgets through its model builder; here they
  are datatype records.
- **Input identity.** An input widget carries an `InputKey` that stands for
  its identity.
- **Widget state.** What the user has typed by the time a dialog closes is
  the parameter `ui: UiState`, read through `Current`.
- **Callbacks.** The three callbacks of the creation context are an ordered
  log of `Event`s that each field processor returns.
  `DeploymentInputDialog.Initialize` delivers these events, in order, to its
  three callback methods.
- **Validators.** Validators are a closed datatype, either the SQL
  complexity rule or the confirmation match rule. They are evaluated against
  `ui`.
- **Asynchronous `onComplete`.** The add-controller `onComplete` is split at
  each `await`. The model's `OnComplete`, `OnEndpointsResponse` and
  `OnSaveResult` are the three parts, and a cancellation may fall between
  them. `AttemptOutcome` composes the three parts, with the cancel flag as it
  stands when each part runs.

Two facts about the password processor that the model keeps:

- **Confirmation box.** For a password field with `confirmationRequired`,
  the code registers only the password box as an input component. The
  confirmation box is laid out and compared, but never registered, so the
  field has one input handle.
- **Confirmation without the SQL kind.** The confirmation check and its
  listeners are attached to plain password fields too, not only to the SQL
  kind.

## Model

| member | source | states |
|---|---|---|
| `ModelViewUtils.HasClass` | extensions/resource-deployment/src/ui/modelViewUtils.ts:391-394 | a regular-expression class test holds iff some character of the password is in that class |
| `ModelViewUtils.ScoreMeansAtMostOneMissing` | extensions/resource-deployment/src/ui/modelViewUtils.ts:391-395 | the sum of the four 0/1 class flags is at least 3 iff at most one of the four classes is missing |
| `ModelViewUtils.SqlPasswordPolicy` | extensions/resource-deployment/src/ui/modelViewUtils.ts:387-395 | a password is valid iff it is not a non-empty password containing the upper-cased user name (default "sa"), its length is in [8,128], and at most one class is missing; in particular any occurrence of the user name, or a length outside [8,128], rejects it |
| `ModelViewUtils.EmptyUserNameRejectsAll` | extensions/resource-deployment/src/ui/modelViewUtils.ts:389-395 | an empty user name rejects every non-empty password |
| `ModelViewUtils.ThreeClassesWithoutNameAccepted` | extensions/resource-deployment/src/ui/modelViewUtils.ts:387-395 | against the default user name, any password of 8 to 128 characters with upper case, lower case and a digit and no letter s is accepted |
| `ModelViewUtils.SqlPasswordAccepted` | extensions/resource-deployment/src/ui/modelViewUtils.ts:387-395 | "Abcdefg1" is accepted against the default user name |
| `ModelViewUtils.SqlPasswordOneClassRejected` | extensions/resource-deployment/src/ui/modelViewUtils.ts:391-395 | "abcdefgh" (one class only) is rejected |
| `ModelViewUtils.SqlPasswordWithUserNameRejected` | extensions/resource-deployment/src/ui/modelViewUtils.ts:389-395 | "sa12345!" is rejected because it contains the default user name |
| `ModelViewUtils.NoLetterS` | extensions/resource-deployment/src/ui/modelViewUtils.ts:389 | a password without the letter s contains no case-insensitive occurrence of "sa" |
| `ModelViewUtils.LabelInputPairShape` | extensions/resource-deployment/src/ui/modelViewUtils.ts:226-233 | the pair shows the label, then the input, in one flex row iff the label is on the left, and adds no spacer |
| `ModelViewUtils.ProcessField` | extensions/resource-deployment/src/ui/modelViewUtils.ts:236-263 | dispatch fails iff the kind is unknown, with the "Unknown field type" message naming that kind |
| `ModelViewUtils.ProcessFieldRegistersInput` | extensions/resource-deployment/src/ui/modelViewUtils.ts:265-385 | every kind except read-only text registers exactly one input under its variable name, as its first callback; that input is one of the widgets the field lays out; read-only text registers nothing |
| `ModelViewUtils.PasswordEventsShape` | extensions/resource-deployment/src/ui/modelViewUtils.ts:319-373 | a password field registers its box once; its validators are the complexity rule for the SQL kind, then the match rule when confirmation is required |
| `ModelViewUtils.PasswordComponentsShape` | extensions/resource-deployment/src/ui/modelViewUtils.ts:319-354 | the password box, and with confirmation the confirmation box, are among the field's laid-out widgets |
| `ModelViewUtils.PasswordFieldConfirmation` | extensions/resource-deployment/src/ui/modelViewUtils.ts:344-358 | the validators of `processPasswordField` with confirmation hold exactly one match rule, and it fails iff the password box and the confirmation box hold different values |
| `ModelViewUtils.ConfirmationValidatorFailsIffDiffer` | extensions/resource-deployment/src/ui/modelViewUtils.ts:344-358 | the same, for a password field reached through `processField` |
| `ModelViewUtils.ConfirmationRuleRegistered` | extensions/resource-deployment/src/ui/modelViewUtils.ts:355-358 | a password field with confirmation registers the match rule between its two boxes |
| `ModelViewUtils.SqlPasswordValidatorMeaning` | extensions/resource-deployment/src/ui/modelViewUtils.ts:331-342 | a complexity validator is registered iff the field is of the SQL kind, and it holds iff the password box's value passes the SQL password rule against the field's user name |
| `ModelViewUtils.OnlyPasswordFieldsValidate` | extensions/resource-deployment/src/ui/modelViewUtils.ts:265-385 | the non-password kinds register no validator and no disposable |
| `ModelViewUtils.CheckboxSeed` | extensions/resource-deployment/src/ui/modelViewUtils.ts:381-385 | a checkbox is registered, checked iff its default value is the string "true" |
| `ModelViewUtils.DateTimeDefault` | extensions/resource-deployment/src/ui/modelViewUtils.ts:276-289 | a date-time field registers one box whose initial value is its default value as a string followed by the digits of the first 19 characters of `now`, in order; for an ISO timestamp `YYYY-MM-DDTHH:MM:SS…` those are exactly its fourteen date and time digits |
| `ModelViewUtils.TimestampDigits` | extensions/resource-deployment/src/ui/modelViewUtils.ts:278 | the timestamp suffix has at most 19 characters, all of them digits |
| `ModelViewUtils.DigitsOnlyAppend` | extensions/resource-deployment/src/ui/modelViewUtils.ts:278 | removing the non-digits of a concatenation removes them from each part |
| `ModelViewUtils.DigitsOnlySingle` | extensions/resource-deployment/src/ui/modelViewUtils.ts:278 | a single digit is kept and a single non-digit removed |
| `ModelViewUtils.AllDigitsKept` | extensions/resource-deployment/src/ui/modelViewUtils.ts:278 | a string of digits is kept whole |
| `ModelViewUtils.IsoTimestampDigits` | extensions/resource-deployment/src/ui/modelViewUtils.ts:278 | for an ISO timestamp the suffix is year, month, day, hour, minute and second digits in that order, fourteen in all |
| `ModelViewUtils.DialogWidthCascade` | extensions/resource-deployment/src/ui/modelViewUtils.ts:118-119 | in a dialog, a field's label and input widths are the first truthy width of field, section and tab, else 200px and 400px; its label position is the section's only when its own is undefined |
| `ModelViewUtils.WizardWidthCascade` | extensions/resource-deployment/src/ui/modelViewUtils.ts:149-150 | on a wizard page, the same cascade without the tab level |
| `ModelViewUtils.ResolveFieldIdempotent` | extensions/resource-deployment/src/ui/modelViewUtils.ts:197-199 | resolving a field's widths against its section a second time changes nothing |
| `ModelViewUtils.ProcessFieldsSpacers` | extensions/resource-deployment/src/ui/modelViewUtils.ts:194-213 | with a spacing, n fields get exactly n-1 spacers; without one, none |
| `ModelViewUtils.ProcessFields` | extensions/resource-deployment/src/ui/modelViewUtils.ts:194-213 | the components are each field's widgets, in order, each followed by a spacer except the last; the callbacks are those of the fields in order; the first unknown field stops the loop with its error |
| `ModelViewUtils.RowContainersShape` | extensions/resource-deployment/src/ui/modelViewUtils.ts:178-185 | each row becomes exactly one flex container, in order |
| `ModelViewUtils.ProcessRows` | extensions/resource-deployment/src/ui/modelViewUtils.ts:178-185 | the rows are processed in order, spaced by the section's spacing or 50px, up to the first row with an unknown field |
| `ModelViewUtils.CreateSection` | extensions/resource-deployment/src/ui/modelViewUtils.ts:172-192 | widths take their defaults; `fields` win over `rows`; the group is collapsible unless set otherwise and expanded unless set otherwise; an unknown field kind is an error |
| `ModelViewUtils.WithdrawnText` | extensions/resource-deployment/src/ui/modelViewUtils.ts:400-403 | the text is shortened by the message plus its line break when that occurs, else by the message alone |
| `ModelViewUtils.WithdrawLeadingLine` | extensions/resource-deployment/src/ui/modelViewUtils.ts:400-403 | withdrawing a message that is the first line takes its line break with it |
| `ModelViewUtils.WithdrawOnlyMessage` | extensions/resource-deployment/src/ui/modelViewUtils.ts:398-403 | a message shown alone is withdrawn completely |
| `ModelViewUtils.WithdrawFirstOfJoined` | extensions/resource-deployment/src/ui/modelViewUtils.ts:398-403 | withdrawing the first of several line-joined messages leaves exactly the join of the others |
| `ModelViewUtils.RemoveValidationMessage` | extensions/resource-deployment/src/ui/modelViewUtils.ts:398-404 | when the shown text contains the message, the new message is that text with its first occurrence removed (with its line break if present) and carries no level; otherwise nothing changes |
| `ModelViewUtils.HandleTextChanged` | extensions/resource-deployment/src/ui/modelViewUtils.ts:333-337 | a live listener withdraws its rule's message once the rule holds and otherwise leaves the message alone; it never adds a message back |
| `ModelViewUtils.ExtractValue` | extensions/resource-deployment/src/ui/modelViewUtils.ts:418-429 | a checkbox reads "true" iff checked, else "false"; an input box or label reads its value verbatim, undefined included; a drop-down reads its selected category's name or plain text; a component with neither `checked` nor `value` is an "Unknown input type" error naming the variable key |
| `ModelViewUtils.UntouchedFieldKeepsDefault` | extensions/resource-deployment/src/ui/modelViewUtils.ts:414-431 | an untouched text, number or options field hands its default value to the model; a checkbox hands "true" iff its default is "true" |
| `ModelViewUtils.ExtractedMapContents` | extensions/resource-deployment/src/ui/modelViewUtils.ts:414-433 | with distinct names, the model gets exactly one property per component, under its name, with the value read from it |
| `ModelViewUtils.SetModelValues` | extensions/resource-deployment/src/ui/modelViewUtils.ts:414-433 | every component in turn writes its value to the model; the first unreadable one stops the loop with its error, after the writes before it |
| `ModelViewUtils.IsInputBoxEmpty` | extensions/resource-deployment/src/ui/modelViewUtils.ts:435-437 | a box is empty iff it would hand the model undefined or the empty string |
| `ModelViewUtils.Put` | extensions/resource-deployment/src/ui/deploymentInputDialog.ts:37-39 | storing a component under a name makes the name map to it, keeps every other name's entry, and appends the name only if it is new |
| `ModelViewUtils.PutKeepsNamesDistinct` | extensions/resource-deployment/src/ui/deploymentInputDialog.ts:37-39 | storing under a name keeps the names distinct |
| `Strings.RemoveFirst` | extensions/resource-deployment/src/ui/modelViewUtils.ts:402 | replacing with a string pattern cuts out its leftmost occurrence and leaves the text unchanged without one |
| `Strings.ToUpper` | extensions/resource-deployment/src/ui/modelViewUtils.ts:389 | upper-casing keeps the length and upper-cases each ASCII letter in place |
| `Strings.ToUpperCaseless` | extensions/resource-deployment/src/ui/modelViewUtils.ts:389 | two strings upper-case to the same string iff they differ at most in the case of ASCII letters |
| `Strings.JoinContainsPart` | extensions/resource-deployment/src/ui/deploymentInputDialog.ts:53 | every joined part occurs in the joined text |
| `DeploymentInputDialogs.FailingMessagesAppend` | extensions/resource-deployment/src/ui/deploymentInputDialog.ts:44-51 | failures of validators registered later come after those of validators registered earlier |
| `DeploymentInputDialogs.FailingMessagesMembership` | extensions/resource-deployment/src/ui/deploymentInputDialog.ts:44-51 | a message is reported iff some registered validator fails with it; every validator is run, with no short-circuit |
| `DeploymentInputDialogs.NoFailuresIffAllValid` | extensions/resource-deployment/src/ui/deploymentInputDialog.ts:44-57 | nothing is reported iff every registered validator holds |
| `DeploymentInputDialogs.RegisteredLookup` | extensions/resource-deployment/src/ui/deploymentInputDialog.ts:37-39 | after the callbacks, a name maps to the component registered last under it |
| `DeploymentInputDialogs.RegisteredKeepsNamesDistinct` | extensions/resource-deployment/src/ui/deploymentInputDialog.ts:37-39 | registration keeps input names distinct |
| `DeploymentInputDialogs.DeploymentInputDialog.constructor` | extensions/resource-deployment/src/ui/deploymentInputDialog.ts:18-26 | a new dialog has no inputs, validators or disposables, and its OK button reads "Open Notebook" |
| `DeploymentInputDialogs.DeploymentInputDialog.OnNewDisposableCreated` | extensions/resource-deployment/src/ui/deploymentInputDialog.ts:34-36 | the disposable is appended to the dispose list and nothing else changes |
| `DeploymentInputDialogs.DeploymentInputDialog.OnNewInputComponentCreated` | extensions/resource-deployment/src/ui/deploymentInputDialog.ts:37-39 | the component is stored under its name, overwriting an earlier one, and nothing else changes |
| `DeploymentInputDialogs.DeploymentInputDialog.OnNewValidatorCreated` | extensions/resource-deployment/src/ui/deploymentInputDialog.ts:40-42 | the validator is appended to the list and nothing else changes |
| `DeploymentInputDialogs.DeploymentInputDialog.Deliver` | extensions/resource-deployment/src/ui/deploymentInputDialog.ts:31-43 | one callback of the form engine reaches the matching handler |
| `DeploymentInputDialogs.DeploymentInputDialog.Initialize` | extensions/resource-deployment/src/ui/deploymentInputDialog.ts:28-59 | afterwards the validators, the disposables and the inputs are exactly those of the callbacks, in order, and the close validator is registered |
| `DeploymentInputDialogs.DeploymentInputDialog.CloseValidator` | extensions/resource-deployment/src/ui/deploymentInputDialog.ts:44-58 | the close is allowed iff no validator fails; on failure the message is the failing messages in registration order, joined by the line break, at Error level; otherwise the text is reset to "" |
| `DeploymentInputDialogs.DeploymentInputDialog.OnComplete` | extensions/resource-deployment/src/ui/deploymentInputDialog.ts:61-72 | the values are read into a fresh model first; a notebook-based dialog exports the model and launches its notebook, any other runs its command with the model |
| `DeploymentInputDialogs.FailureIsShown` | extensions/resource-deployment/src/ui/deploymentInputDialog.ts:44-53 | every failing validator's message appears in the text of a refused close |
| `DeploymentInputDialogs.PasswordMismatchBlocksClose` | extensions/resource-deployment/src/ui/deploymentInputDialog.ts:44-57 | a dialog whose password field asks for confirmation refuses to close while the two boxes differ, and shows the mismatch message |
| `AddControllerDialogs.GetAuthCategory` | extensions/big-data-cluster/src/bigDataCluster/dialog/addControllerDialog.ts:21-26 | the category keeps the given name |
| `AddControllerDialogs.AuthCategoryDisplay` | extensions/big-data-cluster/src/bigDataCluster/dialog/addControllerDialog.ts:21-26 | the display name is "Basic" iff the name is "basic"; every other name shows "Windows Authentication" |
| `AddControllerDialogs.DefaultAuthCategories` | extensions/big-data-cluster/src/bigDataCluster/dialog/addControllerDialog.ts:54 | the categories are exactly basic, then integrated |
| `AddControllerDialogs.Prefilled` | extensions/big-data-cluster/src/bigDataCluster/dialog/addControllerDialog.ts:40-50 | a truthy given value wins over the node's; without a given category it is built from the node's auth, or "basic" |
| `AddControllerDialogs.PrefilledAuthIsOffered` | extensions/big-data-cluster/src/bigDataCluster/dialog/addControllerDialog.ts:43-57 | a defaulted category is among the offered ones when the node's auth is missing, "basic" or "integrated" |
| `AddControllerDialogs.CredentialsError` | extensions/big-data-cluster/src/bigDataCluster/dialog/addControllerDialog.ts:62-69 | only basic auth is checked, the user name before the password; the check passes iff auth is not basic or both are non-empty |
| `AddControllerDialogs.Escaping` | extensions/big-data-cluster/src/bigDataCluster/dialog/addControllerDialog.ts:80-85 | an error escapes iff the model is not cancelled |
| `AddControllerDialogs.OnlyCheckedRequestsWait` | extensions/big-data-cluster/src/bigDataCluster/dialog/addControllerDialog.ts:59-72 | `onComplete` reaches its first await iff the credentials pass, and waits with the request it checked |
| `AddControllerDialogs.ResponseStep` | extensions/big-data-cluster/src/bigDataCluster/dialog/addControllerDialog.ts:72-79 | the controller is added and a save started iff the response has an endpoint list and the model is not cancelled |
| `AddControllerDialogs.BasicAuthRequiresUsername` | extensions/big-data-cluster/src/bigDataCluster/dialog/addControllerDialog.ts:62-65 | with basic auth and no user name, the outcome is "Username is required" (unless cancelled), whatever the password, and nothing is added |
| `AddControllerDialogs.BasicAuthRequiresPassword` | extensions/big-data-cluster/src/bigDataCluster/dialog/addControllerDialog.ts:62-69 | with basic auth, a user name and no password, the outcome is "Password is required" (unless cancelled), and nothing is added |
| `AddControllerDialogs.OtherAuthIsNotChecked` | extensions/big-data-cluster/src/bigDataCluster/dialog/addControllerDialog.ts:59-72 | with other auth the credentials change neither the outcome nor whether the controller is added |
| `AddControllerDialogs.CancelledAttemptIsSwallowed` | extensions/big-data-cluster/src/bigDataCluster/dialog/addControllerDialog.ts:73-85 | once cancelled, nothing escapes and a late response adds nothing |
| `AddControllerDialogs.UncancelledAttempt` | extensions/big-data-cluster/src/bigDataCluster/dialog/addControllerDialog.ts:59-87 | without a cancellation, `onComplete` fails iff the credentials, the fetch or the save fail, with that error, and adds the controller iff the credentials pass and the response has endpoints |
| `AddControllerDialogs.EmptyEndpointListAdds` | extensions/big-data-cluster/src/bigDataCluster/dialog/addControllerDialog.ts:73 | an empty endpoint list still adds the controller; a missing response or missing list does not |
| `AddControllerDialogs.AddControllerDialogModel.constructor` | extensions/big-data-cluster/src/bigDataCluster/dialog/addControllerDialog.ts:32-50 | the prefilled values are the given ones with the node's as fallback; the model starts uncancelled, with no category list yet |
| `AddControllerDialogs.AddControllerDialogModel.AuthCategories` | extensions/big-data-cluster/src/bigDataCluster/dialog/addControllerDialog.ts:52-57 | the list is built on first use and the same list is returned ever after |
| `AddControllerDialogs.AddControllerDialogModel.OnComplete` | extensions/big-data-cluster/src/bigDataCluster/dialog/addControllerDialog.ts:59-72 | the part before the first await: the credential check, then the fetch is started |
| `AddControllerDialogs.AddControllerDialogModel.OnEndpointsResponse` | extensions/big-data-cluster/src/bigDataCluster/dialog/addControllerDialog.ts:72-85 | continuing a checked request left waiting, the controller with that request is added and saved exactly when the response has endpoints and the model is not cancelled; a failed fetch escapes unless cancelled |
| `AddControllerDialogs.AddControllerDialogModel.OnSaveResult` | extensions/big-data-cluster/src/bigDataCluster/dialog/addControllerDialog.ts:78-85 | a failed save escapes unless cancelled |
| `AddControllerDialogs.AddControllerDialogModel.OnCancel` | extensions/big-data-cluster/src/bigDataCluster/dialog/addControllerDialog.ts:93-98 | the cancel flag is set and the node, if any, is refreshed |
| `AddControllerDialogs.AddControllerDialog.constructor` | extensions/big-data-cluster/src/bigDataCluster/dialog/addControllerDialog.ts:120-188 | each box starts from the model's prefilled value, the drop-down offers the model's categories, and the buttons read Add and Cancel |
| `AddControllerDialogs.AddControllerDialog.Request` | extensions/big-data-cluster/src/bigDataCluster/dialog/addControllerDialog.ts:206-210 | the request carries the chosen category's name (`authValue`), and remember-password iff the checkbox is checked |
| `AddControllerDialogs.AddControllerDialog.OnAuthChanged` | extensions/big-data-cluster/src/bigDataCluster/dialog/addControllerDialog.ts:194-203 | user name, password and remember-password are enabled iff auth is basic; user name and password are cleared only when it is not |
| `AddControllerDialogs.AddControllerDialog.Settle` | extensions/big-data-cluster/src/bigDataCluster/dialog/addControllerDialog.ts:212-224 | a thrown string or error message becomes an Error-level message and refuses the close; otherwise the close is allowed |
| `AddControllerDialogs.AddControllerDialog.Validate` | extensions/big-data-cluster/src/bigDataCluster/dialog/addControllerDialog.ts:205-224 | up to the model's first await, the close is allowed iff nothing was thrown, and a throw sets the error message |
| `AddControllerDialogs.AddControllerDialog.ValidateWithEndpoints` | extensions/big-data-cluster/src/bigDataCluster/dialog/addControllerDialog.ts:205-224 | the same once the endpoints arrive, continuing the checked request `Validate` left waiting and adding it as `OnEndpointsResponse` does |
| `AddControllerDialogs.AddControllerDialog.ValidateWithSave` | extensions/big-data-cluster/src/bigDataCluster/dialog/addControllerDialog.ts:205-224 | the close is allowed iff the save did not fail or the model is cancelled |
| `AddControllerDialogs.AddControllerDialog.Cancel` | extensions/big-data-cluster/src/bigDataCluster/dialog/addControllerDialog.ts:227-231 | afterwards the model is cancelled |
| `ProjectTree.NodeLeqTotal` | extensions/sql-database-projects/src/test/projectTree.test.ts:33-46 | the node order is total |
| `ProjectTree.NodeLeqTransitive` | extensions/sql-database-projects/src/test/projectTree.test.ts:33-46 | the node order is transitive |
| `ProjectTree.SortNodesCorrect` | extensions/sql-database-projects/src/test/projectTree.test.ts:33-46 | sorting yields a sorted permutation of its input |
| `ProjectTree.SortedOrder` | extensions/sql-database-projects/src/test/projectTree.test.ts:35-46 | after sorting every folder precedes every file, and nodes of one kind ascend by URI path |
| `ProjectTree.ChildOf` | extensions/sql-database-projects/src/test/projectTree.test.ts:53-59 | an entry puts a node under a folder iff it lies below it: itself if it is a direct file, else the folder leading to it |
| `ProjectTree.ChildrenContract` | extensions/sql-database-projects/src/test/projectTree.test.ts:61-81 | a folder's children are sorted, hold no node twice, and are exactly the nodes the entries put under it |
| `ProjectTree.ChildrenByName` | extensions/sql-database-projects/src/test/projectTree.test.ts:77-81 | within a folder, nodes of one kind ascend by name |
| `ProjectTree.RootChildrenShape` | extensions/sql-database-projects/src/test/projectTree.test.ts:83-94 | the root lists the data-source root, then the references root, then the sorted entries, each of them a folder or a file |
| `ProjectTree.EntryOrderIrrelevant` | extensions/sql-database-projects/src/test/projectTree.test.ts:53-59 | a folder's children depend only on which entries exist, not on their order or repetition |
| `ProjectTree.DuplicateEntryIrrelevant` | extensions/sql-database-projects/src/test/projectTree.test.ts:61-67 | listing an entry a second time changes no folder's children |
| `ProjectTree.Project.AddEntry` | extensions/sql-database-projects/src/test/projectTree.test.ts:55-67 | the entry is appended to the files; a repeated entry leaves the root's children as they were |
| `ProjectTree.TestFolderChildren` | extensions/sql-database-projects/src/test/projectTree.test.ts:77-81 | for the test's entries, the folder's children are aNestedFolder, bNestedFolder, aNestedTest.sql, bNestedTest.sql |
| `ProjectTree.TestRootChildren` | extensions/sql-database-projects/src/test/projectTree.test.ts:70-75 | for the test's entries, the root's children are Data Sources, Database References, duplicateFolder, someFolder, duplicate.sql |

## Left out

- Widget construction through the host's model builder is not modelled.
  This includes `createTextInput`, `createNumberInput`, `createCheckbox`,
  `createDropdown`, `createFlexContainer`, `createGroupContainer`,
  `registerContent`, `initializeModel`, the form container and `createTab`.
  These are host API; widgets are records with their properties. The
  `getInputBoxComponent`-style lookups are casts and are covered by
  `Lookup`.
- `initializeDialog` and `initializeWizardPage` are modelled only for their
  width defaults (`DialogSectionWidths`, `WizardSectionWidths`). Tab
  creation and form assembly are host API.
- The registration and firing of `onTextChanged` listeners are not modelled.
  A listener is a `Disposable` record, and `HandleTextChanged` is the body
  it runs. Event ordering between listeners is not modelled.
- `new Date().toISOString()` is the parameter `now`. Only the first 19
  characters and their digits are kept.
- `localize` strings are constants holding the English text.
- The platform's line break (`EOL`) is a parameter of the dialog.
- `ClusterController.getEndPoints` and `saveControllers` are not modelled.
  What they settle to is a parameter (`EndpointsResponse`, or a thrown
  value). `addController` and `saveControllers` are recorded on a stand-in
  provider. `onError` is empty in the code and is omitted.
- `launchNotebook` and `executeCommand` are not modelled; they are recorded
  as a `Completion`. The error message shown when a notebook fails to
  launch is not modelled.
- `showDialog` / `openDialog` are not modelled; they are host calls.
- The deployment `Model` class (`model.ts`) is not part of this model. It is
  a property map plus a flag recording `setEnvironmentVariables`.
- `ModelViewUtils.Evaluate`: a password box with no value is read as the
  empty string. In the code `passwordInput.value!` would make
  `password.length` throw on `undefined`. Whether the host ever leaves the
  value undefined is not visible here.
- `ModelViewUtils.SetModelValues`: the "Unknown input type" error names
  the component's variable key, where the code names `input.id`, the id
  the host assigns the component. Widgets here carry no host id. The path
  is unreachable through the callbacks, because every registered component
  is readable.
- `DeploymentInputDialogs.DeploymentInputDialog.Initialize`: the callbacks
  it receives are taken as a parameter. That they are the ones
  `ProcessFields` emits for the dialog's sections, when `registerContent`
  renders them, is not stated as a contract.
- `ModelViewUtils.IsValidSqlPassword`: upper-casing and the character
  classes are ASCII only; Unicode case folding is not modelled. Lengths
  count Unicode scalar values, not UTF-16 code units: a character outside
  the Basic Multilingual Plane counts once here and twice in the code, so
  for such passwords the model can reject what the code accepts.
- `ProjectTree.SortNodes`: `sortFileFolderNodes`, `FolderNode`, `FileNode`
  and `ProjectRootTreeItem` are not part of this model. The ordering and the
  child lists are the contract the tests assert, and the comparator is
  taken to compare URI paths character by character. Characters are Unicode
  scalar values; that order agrees with JavaScript's code-unit order within
  the Basic Multilingual Plane only. `Array.prototype.sort` is stable; the
  model sorts by insertion, which is also stable. Stability is not relied
  on, because the children hold no ties.
  `ChildOf` is a choice of this model where the tests are silent: a file
  entry and a folder entry with the same path, or a file `a` and an entry
  `a/b`, give two children with the same URI.
- `ModelViewUtils.Put`: the names keep insertion order. JavaScript's
  `Object.keys` lists integer-like keys first, in numeric order, so
  `SetModelValues` may meet the components in another order; this changes
  only which error comes first on a path the callbacks never reach.
- The Electron URL service, the workspace actions, the package-manager
  dialog, the generated REST model classes and the keyboard layout table
  are not part of this model. They are relays, wrappers, a dialog shell,
  declarations and static data, with no logic of their own to verify.
