/**
 * The declarative form engine of the resource-deployment wizards
 * (extensions/resource-deployment/src/ui/modelViewUtils.ts): field and
 * section descriptors, the per-kind field processors, the SQL password rule,
 * the live-feedback message patching and the extraction of the final
 * values into the deployment model.
 *
 * Widgets built through the host's model builder are records here. An input
 * widget carries an `InputKey` that stands for its identity; the state the
 * user has given the widgets by the time a dialog is closed is a parameter
 * (`UiState`), read through `Current`.
 */
module ModelViewUtils {
  import opened Wrappers
  import opened Strings
  import opened JsValues
  import opened Azdata

  const DefaultInputComponentWidth := "400px"
  const DefaultLabelComponentWidth := "200px"
  const DefaultSpaceBetweenFields := "50px"
  const DefaultUserName := "sa"

  // ---------------------------------------------------------------------
  // The SQL Server password rule

  datatype CharClass = UpperCase | LowerCase | Digit | NonWord

  /** The regular-expression classes `[A-Z]`, `[a-z]`, `\d` and `\W`. */
  predicate InClass(c: char, cls: CharClass) {
    match cls
    case UpperCase => 'A' <= c <= 'Z'
    case LowerCase => 'a' <= c <= 'z'
    case Digit => '0' <= c <= '9'
    case NonWord => !('A' <= c <= 'Z' || 'a' <= c <= 'z' || '0' <= c <= '9' || c == '_')
  }

  /** Some character of `s` belongs to `cls`. */
  ghost predicate Present(s: string, cls: CharClass) {
    exists i :: 0 <= i < |s| && InClass(s[i], cls)
  }

  /** At least three of the four classes are present: no two distinct ones are both missing. */
  ghost predicate AtMostOneClassMissing(s: string) {
    forall c1: CharClass, c2: CharClass :: c1 != c2 ==> Present(s, c1) || Present(s, c2)
  }

  /** `/[A-Z]/.test(s)` and its three siblings. */
  function HasClass(s: string, cls: CharClass): (b: bool)
    ensures b <==> Present(s, cls)
  {
    if s == [] then false
    else if InClass(s[0], cls) then true
    else
      var b := HasClass(s[1..], cls);
      assert Present(s[1..], cls) ==> Present(s, cls) by {
        if Present(s[1..], cls) {
          var i :| 0 <= i < |s[1..]| && InClass(s[1..][i], cls);
          assert InClass(s[i + 1], cls);
        }
      }
      assert Present(s, cls) ==> Present(s[1..], cls) by {
        if Present(s, cls) {
          var i :| 0 <= i < |s| && InClass(s[i], cls);
          assert i != 0;
          assert InClass(s[1..][i - 1], cls);
        }
      }
      b
  }

  function Flag(b: bool): nat {
    if b then 1 else 0
  }

  /** The user name the rule compares against: the parameter defaults to "sa". */
  function EffectiveUserName(userName: Option<string>): string {
    if userName.None? then DefaultUserName else userName.value
  }

  lemma {:induction false} ScoreMeansAtMostOneMissing(p: string)
    ensures (Flag(HasClass(p, UpperCase)) + Flag(HasClass(p, LowerCase)) + Flag(HasClass(p, Digit)) +
             Flag(HasClass(p, NonWord)) >= 3) <==> AtMostOneClassMissing(p)
  {
    var u, l, d, n := HasClass(p, UpperCase), HasClass(p, LowerCase), HasClass(p, Digit), HasClass(p, NonWord);
    if Flag(u) + Flag(l) + Flag(d) + Flag(n) >= 3 {
      forall c1: CharClass, c2: CharClass | c1 != c2 ensures Present(p, c1) || Present(p, c2) {
        var _ := HasClass(p, c1);
        var _ := HasClass(p, c2);
      }
    } else {
      assert !AtMostOneClassMissing(p) by {
        if !u && !l {
          assert !(Present(p, UpperCase) || Present(p, LowerCase));
        } else if !u && !d {
          assert !(Present(p, UpperCase) || Present(p, Digit));
        } else if !u && !n {
          assert !(Present(p, UpperCase) || Present(p, NonWord));
        } else if !l && !d {
          assert !(Present(p, LowerCase) || Present(p, Digit));
        } else if !l && !n {
          assert !(Present(p, LowerCase) || Present(p, NonWord));
        } else {
          assert !(Present(p, Digit) || Present(p, NonWord));
        }
      }
    }
  }

  /**
   * `isValidSQLPassword`: the password must not contain the user name
   * (case-insensitively, and only when the password is not empty), must be
   * 8 to 128 characters long and must use at least three of the four
   * character classes.
   */
  predicate IsValidSqlPassword(password: string, userName: Option<string>) {
    var u := EffectiveUserName(userName);
    var containsUserName := password != "" && Contains(ToUpper(password), ToUpper(u));
    var hasUpperCase := Flag(HasClass(password, UpperCase));
    var hasLowerCase := Flag(HasClass(password, LowerCase));
    var hasNumbers := Flag(HasClass(password, Digit));
    var hasNonalphas := Flag(HasClass(password, NonWord));
    !containsUserName && |password| >= 8 && |password| <= 128 &&
    hasUpperCase + hasLowerCase + hasNumbers + hasNonalphas >= 3
  }

  /** What the score-based rule means: no occurrence of the user name, a length of 8 to 128, three classes. */
  lemma {:induction false} SqlPasswordPolicy(password: string, userName: Option<string>)
    ensures var u := EffectiveUserName(userName);
      password != "" && (exists i: nat :: OccursAt(ToUpper(password), ToUpper(u), i)) ==>
        !IsValidSqlPassword(password, userName)
    ensures |password| < 8 || |password| > 128 ==> !IsValidSqlPassword(password, userName)
    ensures IsValidSqlPassword(password, userName) <==>
      && !(password != "" && exists i: nat :: OccursAt(ToUpper(password), ToUpper(EffectiveUserName(userName)), i))
      && 8 <= |password| <= 128
      && AtMostOneClassMissing(password)
  {
    ScoreMeansAtMostOneMissing(password);
  }

  /** An empty user name occurs in every string, so it rejects every non-empty password. */
  lemma {:induction false} EmptyUserNameRejectsAll(password: string)
    requires password != ""
    ensures !IsValidSqlPassword(password, Some(""))
  {
    SqlPasswordPolicy(password, Some(""));
    assert OccursAt(ToUpper(password), ToUpper(""), 0);
  }

  /** Against the default user name, a password of 8 to 128 characters without an `s` and with three classes passes. */
  lemma {:induction false} ThreeClassesWithoutNameAccepted(p: string)
    requires 8 <= |p| <= 128
    requires forall i :: 0 <= i < |p| ==> p[i] != 's' && p[i] != 'S'
    requires HasClass(p, UpperCase) && HasClass(p, LowerCase) && HasClass(p, Digit)
    ensures IsValidSqlPassword(p, None)
  {
    NoLetterS(p);
  }

  /** An eight-character password with upper case, lower case and a digit passes against the default user name. */
  lemma {:induction false} SqlPasswordAccepted()
    ensures IsValidSqlPassword("Abcdefg1", None)
  {
    var good := "Abcdefg1";
    assert InClass(good[0], UpperCase) && InClass(good[1], LowerCase) && InClass(good[7], Digit);
    ThreeClassesWithoutNameAccepted(good);
  }

  /** A password without an `s` or `S` does not contain the default user name. */
  lemma {:induction false} NoLetterS(p: string)
    requires forall i :: 0 <= i < |p| ==> p[i] != 's' && p[i] != 'S'
    ensures !Contains(ToUpper(p), ToUpper(DefaultUserName))
  {
    var upper := ToUpper(p);
    var name := ToUpper(DefaultUserName);
    assert name[0] == 'S';
    forall i: nat ensures !OccursAt(upper, name, i) {
      if i + |name| <= |upper| {
        assert upper[i] == UpperChar(p[i]);
        assert upper[i..i + |name|][0] == upper[i];
      }
    }
  }

  /** A password of lower-case letters only has one class and fails. */
  lemma {:induction false} SqlPasswordOneClassRejected()
    ensures !IsValidSqlPassword("abcdefgh", None)
  {
    var lower := "abcdefgh";
    assert !HasClass(lower, UpperCase) && !HasClass(lower, Digit);
  }

  /** A password that starts with the default user name fails whatever its classes. */
  lemma {:induction false} SqlPasswordWithUserNameRejected()
    ensures !IsValidSqlPassword("sa12345!", None)
  {
    var withName := "sa12345!";
    assert ToUpper(withName)[..2] == "SA";
    assert OccursAt(ToUpper(withName), ToUpper(DefaultUserName), 0);
  }

  /** `getInvalidSQLPasswordMessage`: the message names the field first. */
  function InvalidSqlPasswordMessage(fieldName: string): string {
    fieldName + PasswordComplexityText
  }

  const PasswordComplexityText :=
    " doesn't meet the password complexity requirement. For more information: https://docs.microsoft.com/sql/relational-databases/security/password-policy"

  /** `getPasswordMismatchMessage`: the message names the field first. */
  function PasswordMismatchMessage(fieldName: string): string {
    fieldName + " doesn't match the confirmation password"
  }

  function UnknownFieldTypeMessage(tag: string): string {
    "Unknown field type: \"" + tag + "\""
  }

  function UnknownInputTypeMessage(id: string): string {
    "Unknown input type with ID " + id
  }

  const MissingRequiredInformationErrorMessage := "Please fill out the required fields marked with red asterisks."

  // ---------------------------------------------------------------------
  // Descriptors

  datatype LabelPosition = Left | Top

  /**
   * The field kinds; a descriptor read from configuration may carry any other
   * tag. `Unrecognized(tag)` stands for a tag that is none of the eight known
   * kinds' strings; a known string is always read as its own kind.
   */
  datatype FieldType =
    | Text | Number | Password | SqlPassword | Options | DateTimeText | Checkbox | ReadonlyText
    | Unrecognized(tag: string)

  /** A drop-down entry: a plain string or a category with a name and a display name. */
  datatype DropdownValue = Plain(text: string) | Category(category: CategoryValue)

  datatype FieldInfo = FieldInfo(
    fieldType: FieldType,
    variableName: Option<string>,
    labelText: string,
    description: Option<string>,
    required: Option<bool>,
    defaultValue: Option<string>,
    placeHolder: Option<string>,
    min: Option<int>,
    max: Option<int>,
    options: seq<DropdownValue>,
    confirmationRequired: Option<bool>,
    confirmationLabel: Option<string>,
    userName: Option<string>,
    useCustomValidator: Option<bool>,
    fontStyle: Option<string>,
    labelWidth: Option<string>,
    inputWidth: Option<string>,
    labelPosition: Option<LabelPosition>)

  datatype RowInfo = RowInfo(fields: seq<FieldInfo>)

  datatype SectionInfo = SectionInfo(
    title: string,
    fields: Option<seq<FieldInfo>>,
    rows: Option<seq<RowInfo>>,
    collapsible: Option<bool>,
    collapsed: Option<bool>,
    spaceBetweenFields: Option<string>,
    labelWidth: Option<string>,
    inputWidth: Option<string>,
    labelPosition: Option<LabelPosition>)

  datatype TabInfo = TabInfo(
    title: string,
    sections: seq<SectionInfo>,
    labelWidth: Option<string>,
    inputWidth: Option<string>)

  // ---------------------------------------------------------------------
  // Widgets, validators and the callbacks' events

  /** Identity of an input widget: its variable name, or the confirmation box of a password field. */
  datatype InputKey = Named(name: string) | Confirmation(name: string)

  datatype InputType = TextInput | NumberInput | PasswordInput

  datatype Widget =
    | Label(text: Option<string>, description: Option<string>, requiredIndicator: Option<bool>,
            width: Option<string>, fontStyle: string)
    | InputBox(key: InputKey, inputType: InputType, value: Option<string>, ariaLabel: Option<string>,
               required: Option<bool>, placeHolder: Option<string>, min: Option<int>, max: Option<int>,
               width: Option<string>)
    | DropDown(key: InputKey, values: seq<DropdownValue>, selected: Option<DropdownValue>, width: Option<string>)
    | CheckBox(key: InputKey, checked: Option<bool>, caption: string)
    | FlexRow(items: seq<Widget>)
    | Spacer(spacing: string)
    | Group(header: string, items: seq<Widget>, collapsible: bool, collapsed: bool)

  predicate IsInput(w: Widget) {
    w.InputBox? || w.DropDown? || w.CheckBox?
  }

  /** The state of every input widget the user has touched, by key. */
  type UiState = map<InputKey, Widget>

  /** A widget as the user has left it: its entry in `ui`, else as it was rendered. */
  function Current(w: Widget, ui: UiState): Widget {
    if IsInput(w) && w.key in ui then ui[w.key] else w
  }

  /** The `value` of an input box. */
  function InputValue(w: Widget): Option<string> {
    if w.InputBox? then w.value else None
  }

  /**
   * The close-time checks a field registers. Each keeps the label of its
   * field, from which its failure message is built.
   */
  datatype Validator =
    | SqlPasswordRule(password: Widget, userName: Option<string>, fieldName: string)
    | ConfirmationRule(password: Widget, confirmation: Widget, fieldName: string)

  /** The message a validator reports when it fails. */
  function RuleMessage(v: Validator): string {
    match v
    case SqlPasswordRule(_, _, name) => InvalidSqlPasswordMessage(name)
    case ConfirmationRule(_, _, name) => PasswordMismatchMessage(name)
  }

  datatype ValidationResult = ValidationResult(valid: bool, message: string)

  /** Runs a validator against the current state of its widgets; an unset password counts as empty. */
  function Evaluate(v: Validator, ui: UiState): ValidationResult {
    match v
    case SqlPasswordRule(p, u, _) =>
      var text := InputValue(Current(p, ui));
      ValidationResult(IsValidSqlPassword(if text.Some? then text.value else "", u), RuleMessage(v))
    case ConfirmationRule(p, c, _) =>
      ValidationResult(InputValue(Current(p, ui)) == InputValue(Current(c, ui)), RuleMessage(v))
  }

  /** A text-changed listener on `source` that withdraws `rule`'s message once `rule` holds. */
  datatype Disposable = TextChangedListener(source: InputKey, rule: Validator)

  /** One call of a callback of the creation context, in the order they are made. */
  datatype Event =
    | InputCreated(name: string, component: Widget)
    | ValidatorCreated(validator: Validator)
    | DisposableCreated(disposable: Disposable)

  /** What processing one field pushes onto the component list, and the callbacks it makes. */
  datatype FieldOutput = FieldOutput(components: seq<Widget>, events: seq<Event>)

  /** The names passed to `onNewInputComponentCreated`, in order. */
  function RegisteredNames(events: seq<Event>): seq<string>
    decreases |events|
  {
    if events == [] then []
    else (if events[0].InputCreated? then [events[0].name] else []) + RegisteredNames(events[1..])
  }

  /** The validators passed to `onNewValidatorCreated`, in order. */
  function ValidatorsOf(events: seq<Event>): seq<Validator>
    decreases |events|
  {
    if events == [] then []
    else (if events[0].ValidatorCreated? then [events[0].validator] else []) + ValidatorsOf(events[1..])
  }

  /** The disposables passed to `onNewDisposableCreated`, in order. */
  function DisposablesOf(events: seq<Event>): seq<Disposable>
    decreases |events|
  {
    if events == [] then []
    else (if events[0].DisposableCreated? then [events[0].disposable] else []) + DisposablesOf(events[1..])
  }

  /** The widgets of a list with the flex rows opened up one level. */
  function Flatten(ws: seq<Widget>): seq<Widget>
    decreases |ws|
  {
    if ws == [] then []
    else (if ws[0].FlexRow? then ws[0].items else [ws[0]]) + Flatten(ws[1..])
  }

  lemma {:induction false} FlattenAppend(a: seq<Widget>, b: seq<Widget>)
    ensures Flatten(a + b) == Flatten(a) + Flatten(b)
    decreases |a|
  {
    if a == [] {
      assert a + b == b;
    } else {
      assert (a + b)[1..] == a[1..] + b;
      FlattenAppend(a[1..], b);
    }
  }

  // ---------------------------------------------------------------------
  // Per-kind field processors

  function CreateLabel(text: Option<string>, description: Option<string>, required: Option<bool>,
                       width: Option<string>, fontStyle: Option<string>): Widget
  {
    Label(text, description, required, width, if Truthy(fontStyle) then fontStyle.value else "normal")
  }

  /**
   * `addLabelInputPairToContainer`: with the label on the left the pair goes
   * into one flex row, otherwise label and input are pushed one after the other.
   */
  function LabelInputPair(caption: Widget, input: Widget, labelPosition: Option<LabelPosition>): seq<Widget> {
    if labelPosition == Some(Left) then [FlexRow([caption, input])] else [caption, input]
  }

  /**
   * Either way the pair shows exactly the label and then the input, in one
   * row iff the label goes on the left, and adds no spacer.
   */
  lemma {:induction false} LabelInputPairShape(caption: Widget, input: Widget, labelPosition: Option<LabelPosition>)
    requires !caption.FlexRow? && !input.FlexRow?
    ensures Flatten(LabelInputPair(caption, input, labelPosition)) == [caption, input]
    ensures |LabelInputPair(caption, input, labelPosition)| == 1 <==> labelPosition == Some(Left)
    ensures !caption.Spacer? && !input.Spacer? ==> CountSpacers(LabelInputPair(caption, input, labelPosition)) == 0
  {
    var ws := LabelInputPair(caption, input, labelPosition);
    if labelPosition == Some(Left) {
      assert ws[1..] == [];
      assert CountSpacers(ws) == 0 + CountSpacers([]);
    } else {
      assert ws[1..] == [input] && [input][1..] == [];
      assert Flatten([input]) == [input] + Flatten([]);
      assert CountSpacers([input]) == (if input.Spacer? then 1 else 0) + CountSpacers([]);
    }
  }

  /** `!useCustomValidator && required`. */
  function RequiredFlag(f: FieldInfo): Option<bool> {
    if IsTrue(f.useCustomValidator) then Some(false) else f.required
  }

  /** The key an input of `f` is registered under; an undefined variable name becomes "undefined". */
  function VariableKey(f: FieldInfo): string {
    JsString(f.variableName)
  }

  function ProcessOptionsTypeField(f: FieldInfo): FieldOutput {
    var fieldLabel := CreateLabel(Some(f.labelText), f.description, Some(false), f.labelWidth, None);
    var dropdown := DropDown(Named(VariableKey(f)), f.options,
                             if f.defaultValue.Some? then Some(Plain(f.defaultValue.value)) else None,
                             f.inputWidth);
    FieldOutput(LabelInputPair(fieldLabel, dropdown, f.labelPosition), [InputCreated(VariableKey(f), dropdown)])
  }

  /** The first 19 characters of an ISO timestamp with everything but the digits dropped. */
  function TimestampDigits(iso: string): (d: string)
    ensures |d| <= 19 && |d| <= |iso|
    ensures forall i :: 0 <= i < |d| ==> '0' <= d[i] <= '9'
  {
    var prefix := if |iso| <= 19 then iso else iso[..19];
    DigitsOnlyBounds(prefix);
    DigitsOnly(prefix)
  }

  /** `replace(/[^0-9]/g, '')`: the digits of `s`, in order. */
  function DigitsOnly(s: string): string
    decreases |s|
  {
    if s == [] then []
    else (if '0' <= s[0] <= '9' then [s[0]] else []) + DigitsOnly(s[1..])
  }

  /** What is left is no longer than the input and holds digits only. */
  lemma {:induction false} DigitsOnlyBounds(s: string)
    ensures |DigitsOnly(s)| <= |s|
    ensures forall i :: 0 <= i < |DigitsOnly(s)| ==> '0' <= DigitsOnly(s)[i] <= '9'
    decreases |s|
  {
    if s != [] {
      DigitsOnlyBounds(s[1..]);
    }
  }

  /** Dropping the non-digits of a concatenation drops them from each part. */
  lemma {:induction false} DigitsOnlyAppend(a: string, b: string)
    ensures DigitsOnly(a + b) == DigitsOnly(a) + DigitsOnly(b)
    decreases |a|
  {
    if a != [] {
      assert (a + b)[0] == a[0] && (a + b)[1..] == a[1..] + b;
      DigitsOnlyAppend(a[1..], b);
    } else {
      assert a + b == b;
    }
  }

  /** A single non-digit is dropped, a single digit kept. */
  lemma {:induction false} DigitsOnlySingle(c: char)
    ensures DigitsOnly([c]) == if '0' <= c <= '9' then [c] else []
  {
    assert [c][1..] == [];
  }

  /** Positions `lo` up to `hi` of `s` hold digits. */
  predicate DigitRun(s: string, lo: nat, hi: nat)
    requires lo <= hi <= |s|
  {
    forall i :: lo <= i < hi ==> '0' <= s[i] <= '9'
  }

  /** An ISO timestamp `YYYY-MM-DDTHH:MM:SS…` has its first 19 characters in this shape. */
  predicate IsoTimestampShape(iso: string) {
    && |iso| >= 19
    && DigitRun(iso, 0, 4) && iso[4] == '-' && DigitRun(iso, 5, 7) && iso[7] == '-' && DigitRun(iso, 8, 10)
    && iso[10] == 'T' && DigitRun(iso, 11, 13) && iso[13] == ':' && DigitRun(iso, 14, 16) && iso[16] == ':'
    && DigitRun(iso, 17, 19)
  }

  /** A string made of digits alone is kept whole. */
  lemma {:induction false} AllDigitsKept(s: string)
    requires forall i :: 0 <= i < |s| ==> '0' <= s[i] <= '9'
    ensures DigitsOnly(s) == s
    decreases |s|
  {
    if s != [] {
      AllDigitsKept(s[1..]);
      assert s == [s[0]] + s[1..];
    }
  }

  /** A run of digits, a separator, then the rest: the run is kept, the separator dropped. */
  lemma {:induction false} DigitsThenSeparator(run: string, sep: char, rest: string)
    requires forall i :: 0 <= i < |run| ==> '0' <= run[i] <= '9'
    requires !('0' <= sep <= '9')
    ensures DigitsOnly(run + ([sep] + rest)) == run + DigitsOnly(rest)
  {
    DigitsOnlyAppend(run, [sep] + rest);
    DigitsOnlyAppend([sep], rest);
    DigitsOnlySingle(sep);
    AllDigitsKept(run);
  }

  /** The run of `k` digits at position `lo` of `s`, then a separator: the run is kept, the separator dropped. */
  lemma {:induction false} DigitsRunAt(s: string, lo: nat, k: nat)
    requires lo + k < |s|
    requires DigitRun(s, lo, lo + k)
    requires !('0' <= s[lo + k] <= '9')
    ensures DigitsOnly(s[lo..]) == s[lo..lo + k] + DigitsOnly(s[lo + k + 1..])
  {
    var run := s[lo..lo + k];
    assert s[lo..] == run + ([s[lo + k]] + s[lo + k + 1..]);
    assert forall i :: 0 <= i < |run| ==> run[i] == s[lo + i];
    DigitsThenSeparator(run, s[lo + k], s[lo + k + 1..]);
  }

  /** The first 19 characters of an ISO timestamp keep their fourteen digits, in order. */
  lemma {:induction false} IsoPrefixDigits(s: string)
    requires |s| == 19 && IsoTimestampShape(s)
    ensures DigitsOnly(s) == s[0..4] + (s[5..7] + (s[8..10] + (s[11..13] + (s[14..16] + s[17..19]))))
  {
    assert s[0..] == s;
    DigitsRunAt(s, 0, 4);
    DigitsRunAt(s, 5, 2);
    DigitsRunAt(s, 8, 2);
    DigitsRunAt(s, 11, 2);
    DigitsRunAt(s, 14, 2);
    assert DigitsOnly(s[17..]) == s[17..19] by {
      assert s[17..] == s[17..19];
      assert forall i :: 0 <= i < 2 ==> s[17..19][i] == s[17 + i];
      AllDigitsKept(s[17..19]);
    }
  }

  /**
   * For an ISO timestamp the suffix is exactly its fourteen digits of year,
   * month, day, hour, minute and second, in that order.
   */
  lemma {:induction false} IsoTimestampDigits(iso: string)
    requires IsoTimestampShape(iso)
    ensures TimestampDigits(iso) == iso[0..4] + (iso[5..7] + (iso[8..10] + (iso[11..13] + (iso[14..16] + iso[17..19]))))
    ensures |TimestampDigits(iso)| == 14
  {
    var s := iso[..19];
    assert TimestampDigits(iso) == DigitsOnly(s) by {
      if |iso| == 19 {
        assert iso[..19] == iso;
      }
    }
    assert forall i :: 0 <= i < 19 ==> s[i] == iso[i];
    assert IsoTimestampShape(s);
    IsoPrefixDigits(s);
    assert s[0..4] == iso[0..4] && s[5..7] == iso[5..7] && s[8..10] == iso[8..10];
    assert s[11..13] == iso[11..13] && s[14..16] == iso[14..16] && s[17..19] == iso[17..19];
  }

  /** A date-time field's initial value: its default value followed by the digits of `now`. */
  function ProcessDateTimeTextField(f: FieldInfo, now: string): FieldOutput {
    var fieldLabel := CreateLabel(Some(f.labelText), f.description, f.required, f.labelWidth, None);
    var input := InputBox(Named(VariableKey(f)), TextInput, Some(JsString(f.defaultValue) + TimestampDigits(now)),
                          Some(f.labelText), RequiredFlag(f), f.placeHolder, None, None, f.inputWidth);
    FieldOutput(LabelInputPair(fieldLabel, input, f.labelPosition), [InputCreated(VariableKey(f), input)])
  }

  function ProcessNumberField(f: FieldInfo): FieldOutput {
    var fieldLabel := CreateLabel(Some(f.labelText), f.description, f.required, f.labelWidth, None);
    var input := InputBox(Named(VariableKey(f)), NumberInput, f.defaultValue, Some(f.labelText), RequiredFlag(f),
                          f.placeHolder, f.min, f.max, f.inputWidth);
    FieldOutput(LabelInputPair(fieldLabel, input, f.labelPosition), [InputCreated(VariableKey(f), input)])
  }

  function ProcessTextField(f: FieldInfo): FieldOutput {
    var fieldLabel := CreateLabel(Some(f.labelText), f.description, f.required, f.labelWidth, None);
    var input := InputBox(Named(VariableKey(f)), TextInput, f.defaultValue, Some(f.labelText), RequiredFlag(f),
                          f.placeHolder, None, None, f.inputWidth);
    FieldOutput(LabelInputPair(fieldLabel, input, f.labelPosition), [InputCreated(VariableKey(f), input)])
  }

  /** The masked input of a password field. */
  function PasswordInputOf(f: FieldInfo): Widget {
    InputBox(Named(VariableKey(f)), PasswordInput, None, Some(f.labelText), RequiredFlag(f), f.placeHolder,
             None, None, f.inputWidth)
  }

  /** The masked confirmation input of a password field (not registered as an input component). */
  function ConfirmationInputOf(f: FieldInfo): Widget {
    InputBox(Confirmation(VariableKey(f)), PasswordInput, None, f.confirmationLabel,
             Some(!IsTrue(f.useCustomValidator)), None, None, None, f.inputWidth)
  }

  /** The complexity validator a SQL password field registers. */
  function SqlPasswordRuleOf(f: FieldInfo): Validator {
    SqlPasswordRule(PasswordInputOf(f), f.userName, f.labelText)
  }

  /** The match validator a password field with confirmation registers. */
  function ConfirmationRuleOf(f: FieldInfo): Validator {
    ConfirmationRule(PasswordInputOf(f), ConfirmationInputOf(f), f.labelText)
  }

  /** The callbacks of the SQL complexity check: its live listener, then the validator. */
  function SqlPasswordEvents(f: FieldInfo): seq<Event> {
    if f.fieldType == SqlPassword then
      [DisposableCreated(TextChangedListener(PasswordInputOf(f).key, SqlPasswordRuleOf(f))),
       ValidatorCreated(SqlPasswordRuleOf(f))]
    else []
  }

  /** The callbacks of the confirmation: the match validator, then a listener on each input. */
  function ConfirmationEvents(f: FieldInfo): seq<Event> {
    if IsTrue(f.confirmationRequired) then
      [ValidatorCreated(ConfirmationRuleOf(f)),
       DisposableCreated(TextChangedListener(PasswordInputOf(f).key, ConfirmationRuleOf(f))),
       DisposableCreated(TextChangedListener(ConfirmationInputOf(f).key, ConfirmationRuleOf(f)))]
    else []
  }

  function ConfirmationComponents(f: FieldInfo): seq<Widget> {
    if IsTrue(f.confirmationRequired) then
      var confirmLabel := CreateLabel(f.confirmationLabel, None, Some(true), f.labelWidth, None);
      LabelInputPair(confirmLabel, ConfirmationInputOf(f), f.labelPosition)
    else []
  }

  /**
   * A password field: the masked input; for the SQL kind a complexity
   * validator and its live listener; when confirmation is required a second
   * masked input, a match validator and a listener on each of the two inputs.
   */
  function ProcessPasswordField(f: FieldInfo): FieldOutput {
    var passwordLabel := CreateLabel(Some(f.labelText), f.description, f.required, f.labelWidth, None);
    var passwordInput := PasswordInputOf(f);
    FieldOutput(LabelInputPair(passwordLabel, passwordInput, f.labelPosition) + ConfirmationComponents(f),
                PasswordEvents(f))
  }

  /** The callbacks of a password field: its input, then the SQL check's, then the confirmation's. */
  function PasswordEvents(f: FieldInfo): seq<Event> {
    [InputCreated(VariableKey(f), PasswordInputOf(f))] + SqlPasswordEvents(f) + ConfirmationEvents(f)
  }

  /** A read-only field: its label and a second label with the default value; nothing is registered. */
  function ProcessReadonlyTextField(f: FieldInfo): FieldOutput {
    var fieldLabel := CreateLabel(Some(f.labelText), f.description, Some(false), f.labelWidth, None);
    var text := CreateLabel(f.defaultValue, Some(""), Some(false), f.inputWidth, f.fontStyle);
    FieldOutput(LabelInputPair(fieldLabel, text, f.labelPosition), [])
  }

  /** A checkbox, checked iff the default value is the string "true"; it is its own label. */
  function ProcessCheckboxField(f: FieldInfo): FieldOutput {
    var checkbox := CheckBox(Named(VariableKey(f)), Some(f.defaultValue == Some("true")), f.labelText);
    FieldOutput([checkbox], [InputCreated(VariableKey(f), checkbox)])
  }

  /** `processField`: dispatch on the field kind; an unknown kind is an error naming the kind. */
  function ProcessField(f: FieldInfo, now: string): (r: Result<FieldOutput, string>)
    ensures r.Err? <==> f.fieldType.Unrecognized?
    ensures r.Err? ==> r.error == UnknownFieldTypeMessage(f.fieldType.tag)
  {
    match f.fieldType
    case Options => Ok(ProcessOptionsTypeField(f))
    case DateTimeText => Ok(ProcessDateTimeTextField(f, now))
    case Number => Ok(ProcessNumberField(f))
    case SqlPassword => Ok(ProcessPasswordField(f))
    case Password => Ok(ProcessPasswordField(f))
    case Text => Ok(ProcessTextField(f))
    case ReadonlyText => Ok(ProcessReadonlyTextField(f))
    case Checkbox => Ok(ProcessCheckboxField(f))
    case Unrecognized(tag) => Err(UnknownFieldTypeMessage(tag))
  }

  /** The projections of the callback log distribute over concatenation. */
  lemma {:induction false} RegisteredNamesAppend(a: seq<Event>, b: seq<Event>)
    ensures RegisteredNames(a + b) == RegisteredNames(a) + RegisteredNames(b)
    decreases |a|
  {
    if a == [] {
      assert a + b == b;
    } else {
      assert (a + b)[1..] == a[1..] + b;
      RegisteredNamesAppend(a[1..], b);
      assert RegisteredNames(a + b) == RegisteredNames([a[0]]) + RegisteredNames(a[1..] + b);
    }
  }

  lemma {:induction false} ValidatorsOfAppend(a: seq<Event>, b: seq<Event>)
    ensures ValidatorsOf(a + b) == ValidatorsOf(a) + ValidatorsOf(b)
    decreases |a|
  {
    if a == [] {
      assert a + b == b;
    } else {
      assert (a + b)[1..] == a[1..] + b;
      ValidatorsOfAppend(a[1..], b);
      assert ValidatorsOf(a + b) == ValidatorsOf([a[0]]) + ValidatorsOf(a[1..] + b);
    }
  }

  lemma {:induction false} DisposablesOfAppend(a: seq<Event>, b: seq<Event>)
    ensures DisposablesOf(a + b) == DisposablesOf(a) + DisposablesOf(b)
    decreases |a|
  {
    if a == [] {
      assert a + b == b;
    } else {
      assert (a + b)[1..] == a[1..] + b;
      DisposablesOfAppend(a[1..], b);
      assert DisposablesOf(a + b) == DisposablesOf([a[0]]) + DisposablesOf(a[1..] + b);
    }
  }


  lemma {:induction false} SingleEvent(e: Event)
    ensures RegisteredNames([e]) == (if e.InputCreated? then [e.name] else [])
    ensures ValidatorsOf([e]) == (if e.ValidatorCreated? then [e.validator] else [])
    ensures DisposablesOf([e]) == (if e.DisposableCreated? then [e.disposable] else [])
  {
    assert [e][1..] == [];
  }

  lemma {:induction false} SqlPasswordEventsShape(f: FieldInfo)
    ensures RegisteredNames(SqlPasswordEvents(f)) == []
    ensures ValidatorsOf(SqlPasswordEvents(f)) == if f.fieldType == SqlPassword then [SqlPasswordRuleOf(f)] else []
  {
    if f.fieldType == SqlPassword {
      var es := SqlPasswordEvents(f);
      assert es == [es[0]] + [es[1]];
      SingleEvent(es[0]);
      SingleEvent(es[1]);
      RegisteredNamesAppend([es[0]], [es[1]]);
      ValidatorsOfAppend([es[0]], [es[1]]);
    }
  }

  lemma {:induction false} ConfirmationEventsShape(f: FieldInfo)
    ensures RegisteredNames(ConfirmationEvents(f)) == []
    ensures ValidatorsOf(ConfirmationEvents(f)) == if IsTrue(f.confirmationRequired) then [ConfirmationRuleOf(f)] else []
  {
    if IsTrue(f.confirmationRequired) {
      var es := ConfirmationEvents(f);
      assert es == [es[0]] + [es[1]] + [es[2]];
      SingleEvent(es[0]);
      SingleEvent(es[1]);
      SingleEvent(es[2]);
      RegisteredNamesAppend([es[0]], [es[1]]);
      RegisteredNamesAppend([es[0]] + [es[1]], [es[2]]);
      ValidatorsOfAppend([es[0]], [es[1]]);
      ValidatorsOfAppend([es[0]] + [es[1]], [es[2]]);
    }
  }

  /** The registered password box and, with confirmation, the confirmation box are among the field's widgets. */
  lemma {:induction false} PasswordComponentsShape(f: FieldInfo)
    ensures var out := ProcessPasswordField(f);
      && PasswordInputOf(f) in Flatten(out.components)
      && (IsTrue(f.confirmationRequired) ==> ConfirmationInputOf(f) in Flatten(out.components))
  {
    var passwordLabel := CreateLabel(Some(f.labelText), f.description, f.required, f.labelWidth, None);
    var pair := LabelInputPair(passwordLabel, PasswordInputOf(f), f.labelPosition);
    LabelInputPairShape(passwordLabel, PasswordInputOf(f), f.labelPosition);
    FlattenAppend(pair, ConfirmationComponents(f));
    assert PasswordInputOf(f) in Flatten(pair);
    if IsTrue(f.confirmationRequired) {
      var confirmLabel := CreateLabel(f.confirmationLabel, None, Some(true), f.labelWidth, None);
      LabelInputPairShape(confirmLabel, ConfirmationInputOf(f), f.labelPosition);
    }
  }

  lemma {:induction false} PasswordEventsShape(f: FieldInfo)
    ensures RegisteredNames(PasswordEvents(f)) == [VariableKey(f)]
    ensures PasswordEvents(f)[0] == InputCreated(VariableKey(f), PasswordInputOf(f))
    ensures ValidatorsOf(PasswordEvents(f)) ==
              (if f.fieldType == SqlPassword then [SqlPasswordRuleOf(f)] else []) +
              (if IsTrue(f.confirmationRequired) then [ConfirmationRuleOf(f)] else [])
  {
    SqlPasswordEventsShape(f);
    ConfirmationEventsShape(f);
    PasswordPartsShape(InputCreated(VariableKey(f), PasswordInputOf(f)), SqlPasswordEvents(f), ConfirmationEvents(f),
                       if f.fieldType == SqlPassword then [SqlPasswordRuleOf(f)] else [],
                       if IsTrue(f.confirmationRequired) then [ConfirmationRuleOf(f)] else []);
  }

  /** An input registration followed by two parts that register nothing but validators. */
  lemma {:induction false} PasswordPartsShape(head: Event, sql: seq<Event>, conf: seq<Event>, sqlRules: seq<Validator>, confRules: seq<Validator>)
    requires head.InputCreated?
    requires RegisteredNames(sql) == [] && RegisteredNames(conf) == []
    requires ValidatorsOf(sql) == sqlRules && ValidatorsOf(conf) == confRules
    ensures RegisteredNames([head] + sql + conf) == [head.name]
    ensures ValidatorsOf([head] + sql + conf) == sqlRules + confRules
  {
    SingleEvent(head);
    ThreePartProjections([head], sql, conf);
    assert [] + sqlRules + confRules == sqlRules + confRules;
    assert [head.name] + [] + [] == [head.name];
  }

  lemma {:induction false} ThreePartProjections(a: seq<Event>, b: seq<Event>, c: seq<Event>)
    ensures RegisteredNames(a + b + c) == RegisteredNames(a) + RegisteredNames(b) + RegisteredNames(c)
    ensures ValidatorsOf(a + b + c) == ValidatorsOf(a) + ValidatorsOf(b) + ValidatorsOf(c)
  {
    RegisteredNamesAppend(a, b);
    RegisteredNamesAppend(a + b, c);
    ValidatorsOfAppend(a, b);
    ValidatorsOfAppend(a + b, c);
  }

  /**
   * Every kind but read-only text registers exactly one input component,
   * under the field's variable name, as the first callback, and that
   * component is one of the widgets the field lays out.
   */
  lemma {:induction false} ProcessFieldRegistersInput(f: FieldInfo, now: string)
    requires !f.fieldType.Unrecognized?
    ensures var out := ProcessField(f, now).value;
      && RegisteredNames(out.events) == (if f.fieldType == ReadonlyText then [] else [VariableKey(f)])
      && (f.fieldType != ReadonlyText ==>
            && out.events[0].InputCreated?
            && out.events[0].component in Flatten(out.components)
            && IsInput(out.events[0].component)
            && out.events[0].component.key == Named(VariableKey(f)))
  {
    var out := ProcessField(f, now).value;
    if f.fieldType == Password || f.fieldType == SqlPassword {
      assert out == ProcessPasswordField(f);
      PasswordEventsShape(f);
      PasswordComponentsShape(f);
    } else if f.fieldType == Checkbox {
      assert out == ProcessCheckboxField(f);
      SingleEvent(out.events[0]);
      assert Flatten(out.components) == [out.components[0]] + Flatten([]);
    } else if f.fieldType != ReadonlyText {
      var fieldLabel := CreateLabel(Some(f.labelText), f.description, if f.fieldType == Options then Some(false) else f.required,
                                    f.labelWidth, None);
      LabelInputPairShape(fieldLabel, out.events[0].component, f.labelPosition);
      SingleEvent(out.events[0]);
    }
  }

  /**
   * A password field with confirmation registers exactly one match
   * validator, and that validator fails iff the password box and its
   * confirmation box hold different values.
   */
  lemma {:induction false} ConfirmationValidatorFailsIffDiffer(f: FieldInfo, now: string, ui: UiState)
    requires f.fieldType == Password || f.fieldType == SqlPassword
    requires IsTrue(f.confirmationRequired)
    ensures var out := ProcessField(f, now).value;
      var vs := ValidatorsOf(out.events);
      exists j :: 0 <= j < |vs| && vs[j].ConfirmationRule? &&
        (forall i :: 0 <= i < |vs| && i != j ==> !vs[i].ConfirmationRule?) &&
        vs[j].password == PasswordInputOf(f) && vs[j].confirmation in Flatten(out.components) &&
        (!Evaluate(vs[j], ui).valid <==>
           InputValue(Current(PasswordInputOf(f), ui)) != InputValue(Current(vs[j].confirmation, ui)))
  {
    assert ProcessField(f, now).value == ProcessPasswordField(f);
    PasswordFieldConfirmation(f, ui);
  }

  /** The same for the output of `processPasswordField` itself. */
  lemma {:induction false} PasswordFieldConfirmation(f: FieldInfo, ui: UiState)
    requires IsTrue(f.confirmationRequired)
    ensures var out := ProcessPasswordField(f);
      var vs := ValidatorsOf(out.events);
      exists j :: 0 <= j < |vs| && vs[j].ConfirmationRule? &&
        (forall i :: 0 <= i < |vs| && i != j ==> !vs[i].ConfirmationRule?) &&
        vs[j].password == PasswordInputOf(f) && vs[j].confirmation in Flatten(out.components) &&
        (!Evaluate(vs[j], ui).valid <==>
           InputValue(Current(PasswordInputOf(f), ui)) != InputValue(Current(vs[j].confirmation, ui)))
  {
    ConfirmationRuleIsLast(f);
    PasswordComponentsShape(f);
    ConfirmationAmongValidators(ValidatorsOf(PasswordEvents(f)), Flatten(ProcessPasswordField(f).components), f, ui);
  }

  /** A validator list ending in the match rule, after only complexity rules, holds that one match rule. */
  lemma {:induction false} ConfirmationAmongValidators(vs: seq<Validator>, widgets: seq<Widget>, f: FieldInfo, ui: UiState)
    requires |vs| > 0 && vs[|vs| - 1] == ConfirmationRuleOf(f)
    requires forall i :: 0 <= i < |vs| - 1 ==> vs[i] == SqlPasswordRuleOf(f)
    requires ConfirmationInputOf(f) in widgets
    ensures exists j ::
              0 <= j < |vs| && vs[j].ConfirmationRule? &&
              (forall i :: 0 <= i < |vs| && i != j ==> !vs[i].ConfirmationRule?) &&
              vs[j].password == PasswordInputOf(f) && vs[j].confirmation in widgets &&
              (!Evaluate(vs[j], ui).valid <==>
                 InputValue(Current(PasswordInputOf(f), ui)) != InputValue(Current(vs[j].confirmation, ui)))
  {
    var j := |vs| - 1;
    assert vs[j] == ConfirmationRuleOf(f);
    assert forall i :: 0 <= i < |vs| && i != j ==> vs[i] == SqlPasswordRuleOf(f);
  }

  /** With confirmation, the match rule is the last validator of a password field and the only one of its kind. */
  lemma {:induction false} ConfirmationRuleIsLast(f: FieldInfo)
    requires IsTrue(f.confirmationRequired)
    ensures var vs := ValidatorsOf(PasswordEvents(f));
      && |vs| > 0 && vs[|vs| - 1] == ConfirmationRuleOf(f)
      && forall i :: 0 <= i < |vs| - 1 ==> vs[i] == SqlPasswordRuleOf(f)
  {
    PasswordEventsShape(f);
  }

  /** A password field with confirmation registers the match rule between its two boxes. */
  lemma {:induction false} ConfirmationRuleRegistered(f: FieldInfo, now: string)
    requires f.fieldType == Password || f.fieldType == SqlPassword
    requires IsTrue(f.confirmationRequired)
    ensures ConfirmationRuleOf(f) in ValidatorsOf(ProcessField(f, now).value.events)
  {
    assert ProcessField(f, now).value == ProcessPasswordField(f);
    PasswordEventsShape(f);
  }

  /**
   * A SQL password field registers a validator that holds exactly when the
   * password box's value passes `IsValidSqlPassword` against the field's
   * user name; a plain password field registers no such validator.
   */
  lemma {:induction false} SqlPasswordValidatorMeaning(f: FieldInfo, now: string, ui: UiState)
    requires f.fieldType == Password || f.fieldType == SqlPassword
    ensures var vs := ValidatorsOf(ProcessField(f, now).value.events);
      && (f.fieldType == SqlPassword <==> exists j :: 0 <= j < |vs| && vs[j].SqlPasswordRule?)
      && forall j :: 0 <= j < |vs| && vs[j].SqlPasswordRule? ==>
           var text := InputValue(Current(PasswordInputOf(f), ui));
           Evaluate(vs[j], ui).valid == IsValidSqlPassword(if text.Some? then text.value else "", f.userName)
  {
    assert ProcessField(f, now).value == ProcessPasswordField(f);
    PasswordFieldSqlRule(f, ui);
  }

  /** The same for the callbacks of `processPasswordField` itself. */
  lemma {:induction false} PasswordFieldSqlRule(f: FieldInfo, ui: UiState)
    ensures var vs := ValidatorsOf(PasswordEvents(f));
      && (f.fieldType == SqlPassword <==> exists j :: 0 <= j < |vs| && vs[j].SqlPasswordRule?)
      && forall j :: 0 <= j < |vs| && vs[j].SqlPasswordRule? ==> vs[j] == SqlPasswordRuleOf(f)
  {
    PasswordEventsShape(f);
    var vs := ValidatorsOf(PasswordEvents(f));
    if f.fieldType == SqlPassword {
      assert vs[0].SqlPasswordRule?;
    }
  }

  /** Kinds other than the two password kinds register no validator and no listener. */
  lemma {:induction false} OnlyPasswordFieldsValidate(f: FieldInfo, now: string)
    requires !f.fieldType.Unrecognized? && f.fieldType != Password && f.fieldType != SqlPassword
    ensures var out := ProcessField(f, now).value;
      ValidatorsOf(out.events) == [] && DisposablesOf(out.events) == []
  {
    var out := ProcessField(f, now).value;
    if f.fieldType != ReadonlyText {
      assert |out.events| == 1 && out.events[0].InputCreated?;
      SingleEvent(out.events[0]);
    }
  }

  /** A checkbox is registered checked exactly when its default value is the string "true". */
  lemma {:induction false} CheckboxSeed(f: FieldInfo, now: string)
    requires f.fieldType == Checkbox
    ensures var out := ProcessField(f, now).value;
      |out.events| == 1 && out.events[0].InputCreated? && out.events[0].component.CheckBox? &&
      (IsTrue(out.events[0].component.checked) <==> f.defaultValue == Some("true"))
  {
  }

  /**
   * A date-time field registers one box whose initial value is its default
   * value (as a string) followed by the digits of the first 19 characters
   * of `now`; for an ISO timestamp those are its fourteen date and time digits.
   */
  lemma {:induction false} DateTimeDefault(f: FieldInfo, now: string)
    requires f.fieldType == DateTimeText
    ensures var out := ProcessField(f, now).value;
      && |out.events| == 1 && out.events[0].InputCreated? && out.events[0].component.InputBox?
      && out.events[0].component.value == Some(JsString(f.defaultValue) + TimestampDigits(now))
      && (IsoTimestampShape(now) ==>
            out.events[0].component.value ==
              Some(JsString(f.defaultValue) + (now[0..4] + (now[5..7] + (now[8..10] + (now[11..13] + (now[14..16] + now[17..19])))))))
  {
    if IsoTimestampShape(now) {
      IsoTimestampDigits(now);
    }
  }

  // ---------------------------------------------------------------------
  // Width cascade

  /** `processFields`: a field's widths fall back to the section's, its label position only when undefined. */
  function ResolveField(f: FieldInfo, s: SectionInfo): FieldInfo {
    f.(labelWidth := Or(f.labelWidth, s.labelWidth),
       inputWidth := Or(f.inputWidth, s.inputWidth),
       labelPosition := if f.labelPosition.None? then s.labelPosition else f.labelPosition)
  }

  /** `createSection`: a section's widths fall back to the built-in defaults. */
  function SectionDefaults(s: SectionInfo): SectionInfo {
    s.(inputWidth := Or(s.inputWidth, Some(DefaultInputComponentWidth)),
       labelWidth := Or(s.labelWidth, Some(DefaultLabelComponentWidth)))
  }

  /** `initializeDialog`: in a dialog a section's widths first fall back to its tab's. */
  function DialogSectionWidths(s: SectionInfo, tab: TabInfo): SectionInfo {
    s.(inputWidth := Or(Or(s.inputWidth, tab.inputWidth), Some(DefaultInputComponentWidth)),
       labelWidth := Or(Or(s.labelWidth, tab.labelWidth), Some(DefaultLabelComponentWidth)))
  }

  /** `initializeWizardPage`: on a wizard page straight to the defaults. */
  function WizardSectionWidths(s: SectionInfo): SectionInfo {
    SectionDefaults(s)
  }

  /** The first truthy width of a list of candidates, else `fallback`. */
  function FirstTruthy(ws: seq<Option<string>>, fallback: string): string
    decreases |ws|
  {
    if ws == [] then fallback
    else if Truthy(ws[0]) then ws[0].value
    else FirstTruthy(ws[1..], fallback)
  }

  /**
   * In a dialog a field's widths are the first truthy one of field, section
   * and tab, else 200px for labels and 400px for inputs; its label position
   * is its own unless undefined.
   */
  lemma {:induction false} DialogWidthCascade(f: FieldInfo, s: SectionInfo, tab: TabInfo)
    ensures var r := ResolveField(f, SectionDefaults(DialogSectionWidths(s, tab)));
      && r.labelWidth == Some(FirstTruthy([f.labelWidth, s.labelWidth, tab.labelWidth], DefaultLabelComponentWidth))
      && r.inputWidth == Some(FirstTruthy([f.inputWidth, s.inputWidth, tab.inputWidth], DefaultInputComponentWidth))
      && r.labelPosition == (if f.labelPosition.None? then s.labelPosition else f.labelPosition)
  {
    FirstTruthyOfThree(f.labelWidth, s.labelWidth, tab.labelWidth, DefaultLabelComponentWidth);
    FirstTruthyOfThree(f.inputWidth, s.inputWidth, tab.inputWidth, DefaultInputComponentWidth);
  }

  lemma {:induction false} FirstTruthyOfThree(a: Option<string>, b: Option<string>, c: Option<string>, fallback: string)
    requires fallback != ""
    ensures Some(FirstTruthy([a, b, c], fallback)) == Or(a, Or(Or(b, c), Some(fallback)))
  {
    assert [a, b, c][1..] == [b, c];
    assert [b, c][1..] == [c];
    assert [c][1..] == [];
    assert FirstTruthy([c], fallback) == if Truthy(c) then c.value else FirstTruthy([], fallback);
    assert FirstTruthy([b, c], fallback) == if Truthy(b) then b.value else FirstTruthy([c], fallback);
  }

  lemma {:induction false} FirstTruthyOfTwo(a: Option<string>, b: Option<string>, fallback: string)
    requires fallback != ""
    ensures Some(FirstTruthy([a, b], fallback)) == Or(Or(a, b), Some(fallback))
  {
    assert [a, b][1..] == [b];
    assert [b][1..] == [];
    assert FirstTruthy([b], fallback) == if Truthy(b) then b.value else FirstTruthy([], fallback);
  }

  /** On a wizard page the same cascade without the tab level. */
  lemma {:induction false} WizardWidthCascade(f: FieldInfo, s: SectionInfo)
    ensures var r := ResolveField(f, SectionDefaults(WizardSectionWidths(s)));
      && r.labelWidth == Some(FirstTruthy([f.labelWidth, s.labelWidth], DefaultLabelComponentWidth))
      && r.inputWidth == Some(FirstTruthy([f.inputWidth, s.inputWidth], DefaultInputComponentWidth))
  {
    FirstTruthyOfTwo(f.labelWidth, s.labelWidth, DefaultLabelComponentWidth);
    FirstTruthyOfTwo(f.inputWidth, s.inputWidth, DefaultInputComponentWidth);
  }

  /** The in-place width resolution can be repeated without effect (a re-rendered tab lays out the same). */
  lemma {:induction false} ResolveFieldIdempotent(f: FieldInfo, s: SectionInfo)
    ensures ResolveField(ResolveField(f, s), s) == ResolveField(f, s)
  {
  }

  // ---------------------------------------------------------------------
  // processFields and createSection

  /** The outcome of processing field `f` of section `s`. */
  function FieldOutcome(f: FieldInfo, s: SectionInfo, now: string): Result<FieldOutput, string> {
    ProcessField(ResolveField(f, s), now)
  }

  function ComponentsOf(r: Result<FieldOutput, string>): seq<Widget> {
    if r.Ok? then r.value.components else []
  }

  function EventsOf(r: Result<FieldOutput, string>): seq<Event> {
    if r.Ok? then r.value.events else []
  }

  /** The spacer pushed after field `i` of `n`: only when a spacing is given and the field is not the last. */
  function SpacerAfter(i: nat, n: nat, space: Option<string>): seq<Widget> {
    if Truthy(space) && i + 1 < n then [Spacer(space.value)] else []
  }

  /** The outcome of each field of a list, in order. */
  function FieldOutcomes(fields: seq<FieldInfo>, s: SectionInfo, now: string): (rs: seq<Result<FieldOutput, string>>)
    ensures |rs| == |fields|
    decreases |fields|
  {
    if fields == [] then []
    else FieldOutcomes(fields[..|fields| - 1], s, now) + [FieldOutcome(fields[|fields| - 1], s, now)]
  }

  lemma {:induction false} FieldOutcomesAt(fields: seq<FieldInfo>, s: SectionInfo, now: string, i: nat)
    requires i < |fields|
    ensures FieldOutcomes(fields, s, now)[i] == FieldOutcome(fields[i], s, now)
    decreases |fields|
  {
    var k := |fields| - 1;
    if i < k {
      FieldOutcomesAt(fields[..k], s, now, i);
      assert fields[..k][i] == fields[i];
    }
  }

  /** The components pushed for the outcomes of a prefix of a list of `n` fields. */
  function Layout(rs: seq<Result<FieldOutput, string>>, space: Option<string>, n: nat): seq<Widget>
    decreases |rs|
  {
    if rs == [] then []
    else
      var k := |rs| - 1;
      Layout(rs[..k], space, n) + ComponentsOf(rs[k]) + SpacerAfter(k, n, space)
  }

  /** The callbacks made for the outcomes of a prefix of a field list. */
  function EventsOfAll(rs: seq<Result<FieldOutput, string>>): seq<Event>
    decreases |rs|
  {
    if rs == [] then [] else EventsOfAll(rs[..|rs| - 1]) + EventsOf(rs[|rs| - 1])
  }

  /** The components pushed for a prefix of the `n` fields of a list. */
  function LaidOut(fields: seq<FieldInfo>, s: SectionInfo, space: Option<string>, n: nat, now: string): seq<Widget> {
    Layout(FieldOutcomes(fields, s, now), space, n)
  }

  /** The callbacks made while processing a field list, which stops at its first unknown field. */
  function Emitted(fields: seq<FieldInfo>, s: SectionInfo, now: string): seq<Event> {
    EventsOfAll(FieldOutcomes(fields, s, now)[..FirstFailure(fields)])
  }

  /** One more outcome: its components and spacer come after those of the outcomes before it. */
  lemma {:induction false} LayoutSnoc(rs: seq<Result<FieldOutput, string>>, space: Option<string>, n: nat, i: nat)
    requires i < |rs|
    ensures Layout(rs[..i + 1], space, n) == Layout(rs[..i], space, n) + ComponentsOf(rs[i]) + SpacerAfter(i, n, space)
    ensures EventsOfAll(rs[..i + 1]) == EventsOfAll(rs[..i]) + EventsOf(rs[i])
  {
    assert rs[..i + 1][..i] == rs[..i];
  }

  /** The index of the first field of a kind `processField` does not know, or the length of the list. */
  function FirstFailure(fields: seq<FieldInfo>): (k: nat)
    ensures k <= |fields|
    ensures forall j :: 0 <= j < k ==> !fields[j].fieldType.Unrecognized?
    ensures k < |fields| ==> fields[k].fieldType.Unrecognized?
    decreases |fields|
  {
    if fields == [] then 0
    else if fields[0].fieldType.Unrecognized? then 0
    else 1 + FirstFailure(fields[1..])
  }

  /** The first unknown field is at `i` when all fields before it are known and `i` is unknown or the end. */
  lemma {:induction false} FirstFailureIs(fields: seq<FieldInfo>, i: nat)
    requires i <= |fields|
    requires forall j :: 0 <= j < i ==> !fields[j].fieldType.Unrecognized?
    requires i < |fields| ==> fields[i].fieldType.Unrecognized?
    ensures FirstFailure(fields) == i
  {
  }

  function CountSpacers(ws: seq<Widget>): nat
    decreases |ws|
  {
    if ws == [] then 0 else (if ws[0].Spacer? then 1 else 0) + CountSpacers(ws[1..])
  }

  lemma {:induction false} CountSpacersAppend(a: seq<Widget>, b: seq<Widget>)
    ensures CountSpacers(a + b) == CountSpacers(a) + CountSpacers(b)
    decreases |a|
  {
    if a == [] {
      assert a + b == b;
    } else {
      assert (a + b)[1..] == a[1..] + b;
      CountSpacersAppend(a[1..], b);
    }
  }

  /** No field kind pushes a spacer of its own. */
  lemma {:induction false} FieldOutputHasNoSpacer(f: FieldInfo, now: string)
    requires !f.fieldType.Unrecognized?
    ensures CountSpacers(ProcessField(f, now).value.components) == 0
  {
    var out := ProcessField(f, now).value;
    if f.fieldType == Password || f.fieldType == SqlPassword {
      assert out == ProcessPasswordField(f);
      PasswordFieldHasNoSpacer(f);
    } else if f.fieldType == Checkbox {
      assert out == ProcessCheckboxField(f);
      assert CountSpacers(out.components) == 0 + CountSpacers([]);
    } else if f.fieldType == ReadonlyText {
      assert out == ProcessReadonlyTextField(f);
      var fieldLabel := CreateLabel(Some(f.labelText), f.description, Some(false), f.labelWidth, None);
      var text := CreateLabel(f.defaultValue, Some(""), Some(false), f.inputWidth, f.fontStyle);
      LabelInputPairShape(fieldLabel, text, f.labelPosition);
    } else if f.fieldType == Options {
      assert out == ProcessOptionsTypeField(f);
      PairFieldHasNoSpacer(out, Options, f);
    } else if f.fieldType == DateTimeText {
      assert out == ProcessDateTimeTextField(f, now);
      PairFieldHasNoSpacer(out, DateTimeText, f);
    } else if f.fieldType == Number {
      assert out == ProcessNumberField(f);
      PairFieldHasNoSpacer(out, Number, f);
    } else {
      assert out == ProcessTextField(f);
      PairFieldHasNoSpacer(out, Text, f);
    }
  }

  /** A field laid out as its label and its registered input has no spacer. */
  lemma {:induction false} PairFieldHasNoSpacer(out: FieldOutput, kind: FieldType, f: FieldInfo)
    requires |out.events| == 1 && out.events[0].InputCreated?
    requires !out.events[0].component.FlexRow? && !out.events[0].component.Spacer?
    requires out.components ==
             LabelInputPair(CreateLabel(Some(f.labelText), f.description, if kind == Options then Some(false) else f.required,
                                        f.labelWidth, None), out.events[0].component, f.labelPosition)
    ensures CountSpacers(out.components) == 0
  {
    var fieldLabel := CreateLabel(Some(f.labelText), f.description, if kind == Options then Some(false) else f.required,
                                  f.labelWidth, None);
    LabelInputPairShape(fieldLabel, out.events[0].component, f.labelPosition);
  }

  lemma {:induction false} PasswordFieldHasNoSpacer(f: FieldInfo)
    ensures CountSpacers(ProcessPasswordField(f).components) == 0
  {
    var passwordLabel := CreateLabel(Some(f.labelText), f.description, f.required, f.labelWidth, None);
    var pair := LabelInputPair(passwordLabel, PasswordInputOf(f), f.labelPosition);
    LabelInputPairShape(passwordLabel, PasswordInputOf(f), f.labelPosition);
    CountSpacersAppend(pair, ConfirmationComponents(f));
    if IsTrue(f.confirmationRequired) {
      var confirmLabel := CreateLabel(f.confirmationLabel, None, Some(true), f.labelWidth, None);
      LabelInputPairShape(confirmLabel, ConfirmationInputOf(f), f.labelPosition);
    }
  }

  lemma {:induction false} LayoutSpacers(rs: seq<Result<FieldOutput, string>>, space: Option<string>, n: nat)
    requires |rs| <= n
    requires forall j :: 0 <= j < |rs| ==> CountSpacers(ComponentsOf(rs[j])) == 0
    ensures CountSpacers(Layout(rs, space, n)) ==
            if !Truthy(space) || rs == [] then 0 else if |rs| < n then |rs| else |rs| - 1
    decreases |rs|
  {
    if rs != [] {
      var k := |rs| - 1;
      LayoutSpacers(rs[..k], space, n);
      var block := ComponentsOf(rs[k]);
      CountSpacersAppend(Layout(rs[..k], space, n), block);
      CountSpacersAppend(Layout(rs[..k], space, n) + block, SpacerAfter(k, n, space));
      if Truthy(space) && k + 1 < n {
        assert CountSpacers(SpacerAfter(k, n, space)) == 1 + CountSpacers([]);
      }
    }
  }

  /**
   * With a spacing, a list of n fields that all process gets exactly n-1
   * spacers (one after every field but the last); without one it gets none.
   */
  lemma {:induction false} ProcessFieldsSpacers(fields: seq<FieldInfo>, s: SectionInfo, space: Option<string>, now: string)
    requires forall j :: 0 <= j < |fields| ==> !fields[j].fieldType.Unrecognized?
    ensures CountSpacers(LaidOut(fields, s, space, |fields|, now)) ==
            if Truthy(space) && fields != [] then |fields| - 1 else 0
  {
    var rs := FieldOutcomes(fields, s, now);
    forall j | 0 <= j < |rs| ensures CountSpacers(ComponentsOf(rs[j])) == 0 {
      FieldOutcomesAt(fields, s, now, j);
      FieldOutputHasNoSpacer(ResolveField(fields[j], s), now);
    }
    LayoutSpacers(rs, space, |fields|);
  }

  /**
   * `processFields`: each field in turn takes its widths from the section,
   * is processed, and is followed by a spacer unless it is the last; the
   * first field of an unknown kind stops the loop with its error, after the
   * callbacks of the fields before it have been made.
   */
  method ProcessFields(fields: seq<FieldInfo>, s: SectionInfo, space: Option<string>, now: string)
    returns (components: seq<Widget>, events: seq<Event>, error: Option<string>)
    ensures var k := FirstFailure(fields);
      && components == Layout(FieldOutcomes(fields, s, now)[..k], space, |fields|)
      && events == Emitted(fields, s, now)
      && (error.None? <==> k == |fields|)
      && (k < |fields| ==> error == Some(UnknownFieldTypeMessage(fields[k].fieldType.tag)))
  {
    components, events := [], [];
    ghost var rs := FieldOutcomes(fields, s, now);
    var i := 0;
    while i < |fields|
      invariant 0 <= i <= |fields|
      invariant forall j :: 0 <= j < i ==> !fields[j].fieldType.Unrecognized?
      invariant components == Layout(rs[..i], space, |fields|)
      invariant events == EventsOfAll(rs[..i])
    {
      var outcome := ProcessField(ResolveField(fields[i], s), now);
      FieldOutcomesAt(fields, s, now, i);
      if outcome.Err? {
        error := Some(outcome.error);
        FirstFailureIs(fields, i);
        return;
      }
      assert !fields[i].fieldType.Unrecognized?;
      forall j | 0 <= j < i + 1 ensures !fields[j].fieldType.Unrecognized? {}
      LayoutSnoc(rs, space, |fields|, i);
      assert ComponentsOf(rs[i]) == outcome.value.components && EventsOf(rs[i]) == outcome.value.events;
      components := components + outcome.value.components;
      events := events + outcome.value.events;
      assert events == EventsOfAll(rs[..i + 1]);
      ghost var pushed := components;
      if Truthy(space) && i < |fields| - 1 {
        components := components + [Spacer(space.value)];
      }
      assert components == pushed + SpacerAfter(i, |fields|, space);
      assert components == Layout(rs[..i + 1], space, |fields|);
      i := i + 1;
    }
    FirstFailureIs(fields, i);
    error := None;
  }

  function Collapsible(s: SectionInfo): bool {
    if s.collapsible.None? then true else s.collapsible.value
  }

  function Collapsed(s: SectionInfo): bool {
    if s.collapsed.None? then false else s.collapsed.value
  }

  /** The spacing between the fields of a row: the section's, else 50px. */
  function RowSpacing(s: SectionInfo): Option<string> {
    Or(s.spaceBetweenFields, Some(DefaultSpaceBetweenFields))
  }

  predicate RowFails(row: RowInfo) {
    FirstFailure(row.fields) < |row.fields|
  }

  /** The flex container a row becomes. */
  function RowContainer(row: RowInfo, s: SectionInfo, now: string): Widget {
    FlexRow(LaidOut(row.fields, s, RowSpacing(s), |row.fields|, now))
  }

  /** The flex containers of a list of rows. */
  function RowContainers(rows: seq<RowInfo>, s: SectionInfo, now: string): seq<Widget>
    decreases |rows|
  {
    if rows == [] then []
    else RowContainers(rows[..|rows| - 1], s, now) + [RowContainer(rows[|rows| - 1], s, now)]
  }

  /** The callbacks made by a list of rows, each up to its first failing field. */
  function RowsEmitted(rows: seq<RowInfo>, s: SectionInfo, now: string): seq<Event>
    decreases |rows|
  {
    if rows == [] then []
    else
      var row := rows[|rows| - 1];
      RowsEmitted(rows[..|rows| - 1], s, now) + Emitted(row.fields, s, now)
  }

  function FirstFailingRow(rows: seq<RowInfo>): (k: nat)
    ensures k <= |rows|
    ensures forall j :: 0 <= j < k ==> !RowFails(rows[j])
    ensures k < |rows| ==> RowFails(rows[k])
    decreases |rows|
  {
    if rows == [] then 0
    else if RowFails(rows[0]) then 0
    else 1 + FirstFailingRow(rows[1..])
  }

  /** One more row: its container and its callbacks come after those of the rows before it. */
  lemma {:induction false} RowsSnoc(rows: seq<RowInfo>, s: SectionInfo, now: string, j: nat)
    requires j < |rows|
    ensures RowContainers(rows[..j + 1], s, now) == RowContainers(rows[..j], s, now) + [RowContainer(rows[j], s, now)]
    ensures RowsEmitted(rows[..j + 1], s, now) ==
            RowsEmitted(rows[..j], s, now) + Emitted(rows[j].fields, s, now)
  {
    assert rows[..j + 1][..j] == rows[..j];
  }

  lemma {:induction false} FirstFailingRowIs(rows: seq<RowInfo>, j: nat)
    requires j <= |rows|
    requires forall i :: 0 <= i < j ==> !RowFails(rows[i])
    requires j < |rows| ==> RowFails(rows[j])
    ensures FirstFailingRow(rows) == j
  {
  }

  /** Each row becomes exactly one flex container, in order. */
  lemma {:induction false} RowContainersShape(rows: seq<RowInfo>, s: SectionInfo, now: string)
    ensures |RowContainers(rows, s, now)| == |rows|
    ensures forall j :: 0 <= j < |rows| ==> RowContainers(rows, s, now)[j] == RowContainer(rows[j], s, now)
    decreases |rows|
  {
    if rows != [] {
      var init := rows[..|rows| - 1];
      RowContainersShape(init, s, now);
      forall j | 0 <= j < |rows| ensures RowContainers(rows, s, now)[j] == RowContainer(rows[j], s, now) {
        if j < |rows| - 1 {
          assert init[j] == rows[j];
        }
      }
    }
  }

  /**
   * `createSection`: the section's widths take their defaults; `fields`
   * wins over `rows`; flat fields are laid out without spacers, while each
   * row becomes one flex container spaced by the section's spacing or 50px;
   * the group is collapsible unless told otherwise and expanded unless told
   * otherwise. A failing field ends the section with its error.
   */
  method CreateSection(s: SectionInfo, now: string) returns (group: Result<Widget, string>, events: seq<Event>)
    ensures var sd := SectionDefaults(s);
      if s.fields.Some? then
        var fields := s.fields.value;
        var k := FirstFailure(fields);
        && events == Emitted(fields, sd, now)
        && group == if k == |fields| then Ok(Group(s.title, LaidOut(fields, sd, None, |fields|, now), Collapsible(s), Collapsed(s)))
                   else Err(UnknownFieldTypeMessage(fields[k].fieldType.tag))
      else if s.rows.Some? then
        var rows := s.rows.value;
        var r := FirstFailingRow(rows);
        && events == RowsEmitted(rows[..if r < |rows| then r + 1 else r], sd, now)
        && group == if r == |rows| then Ok(Group(s.title, RowContainers(rows, sd, now), Collapsible(s), Collapsed(s)))
                   else Err(UnknownFieldTypeMessage(rows[r].fields[FirstFailure(rows[r].fields)].fieldType.tag))
      else
        events == [] && group == Ok(Group(s.title, [], Collapsible(s), Collapsed(s)))
  {
    var sectionInfo := SectionDefaults(s);
    var components: seq<Widget> := [];
    var error: Option<string> := None;
    events := [];
    if sectionInfo.fields.Some? {
      components, events, error := ProcessFields(sectionInfo.fields.value, sectionInfo, None, now);
      ghost var outcomes := FieldOutcomes(sectionInfo.fields.value, sectionInfo, now);
      assert outcomes[..|outcomes|] == outcomes;
    } else if sectionInfo.rows.Some? {
      components, events, error := ProcessRows(sectionInfo.rows.value, sectionInfo, now);
    }
    if error.Some? {
      group := Err(error.value);
    } else {
      group := Ok(Group(sectionInfo.title, components, Collapsible(sectionInfo), Collapsed(sectionInfo)));
    }
  }

  /** The rows of a section, each processed into one flex container up to the first failing field. */
  method ProcessRows(rows: seq<RowInfo>, s: SectionInfo, now: string)
    returns (components: seq<Widget>, events: seq<Event>, error: Option<string>)
    ensures var r := FirstFailingRow(rows);
      && events == RowsEmitted(rows[..if r < |rows| then r + 1 else r], s, now)
      && (error.None? <==> r == |rows|)
      && (r == |rows| ==> components == RowContainers(rows, s, now))
      && (r < |rows| ==> error == Some(UnknownFieldTypeMessage(rows[r].fields[FirstFailure(rows[r].fields)].fieldType.tag)))
  {
    components, events := [], [];
    var j := 0;
    while j < |rows|
      invariant 0 <= j <= |rows|
      invariant forall i :: 0 <= i < j ==> !RowFails(rows[i])
      invariant components == RowContainers(rows[..j], s, now)
      invariant events == RowsEmitted(rows[..j], s, now)
    {
      var rowItems, rowEvents, rowError := ProcessFields(rows[j].fields, s, RowSpacing(s), now);
      RowsSnoc(rows, s, now, j);
      events := events + rowEvents;
      if rowError.Some? {
        FirstFailingRowIs(rows, j);
        error := rowError;
        return;
      }
      ghost var outcomes := FieldOutcomes(rows[j].fields, s, now);
      assert outcomes[..|outcomes|] == outcomes;
      assert !RowFails(rows[j]);
      forall i | 0 <= i < j + 1
        ensures !RowFails(rows[i])
      {
      }
      components := components + [FlexRow(rowItems)];
      j := j + 1;
    }
    assert rows[..j] == rows;
    FirstFailingRowIs(rows, j);
    error := None;
  }

  // ---------------------------------------------------------------------
  // Live feedback: withdrawing a validation message

  /**
   * The text left once `message` is withdrawn from `text`: its first
   * occurrence followed by a line break goes when there is one, else its
   * first occurrence alone.
   */
  function WithdrawnText(text: string, message: string): (r: string)
    ensures Contains(text, message + "\n") ==> |r| == |text| - |message| - 1
    ensures !Contains(text, message + "\n") && Contains(text, message) ==> |r| == |text| - |message|
  {
    RemoveFirst(text, if Contains(text, message + "\n") then message + "\n" else message)
  }

  /** Withdrawing the first line of a message takes its line break with it. */
  lemma {:induction false} WithdrawLeadingLine(message: string, rest: string)
    ensures WithdrawnText(message + "\n" + rest, message) == rest
  {
    var text := message + "\n" + rest;
    var search := message + "\n";
    assert text[..|search|] == search;
    assert OccursAt(text, search, 0);
    var i: nat :| OccursAt(text, search, i) && (forall j: nat :: j < i ==> !OccursAt(text, search, j)) &&
                  RemoveFirst(text, search) == text[..i] + text[i + |search|..];
    assert i == 0;
    assert text[|search|..] == rest;
  }

  /** A message shown alone is withdrawn completely. */
  lemma {:induction false} WithdrawOnlyMessage(message: string)
    ensures WithdrawnText(message, message) == ""
  {
    assert OccursAt(message, message, 0);
  }

  /**
   * When the dialog shows several messages one per line, withdrawing the
   * first one leaves exactly the others.
   */
  lemma {:induction false} WithdrawFirstOfJoined(messages: seq<string>)
    requires |messages| >= 2
    ensures WithdrawnText(Join(messages, "\n"), messages[0]) == Join(messages[1..], "\n")
  {
    JoinCons(messages, "\n");
    WithdrawLeadingLine(messages[0], Join(messages[1..], "\n"));
  }

  /**
   * `removeValidationMessage`: when the container shows a message whose
   * text contains `message`, that message is withdrawn from it and the
   * level is dropped; otherwise nothing changes.
   */
  method RemoveValidationMessage(container: Container, message: string)
    modifies container
    ensures old(container.message).Some? && Contains(old(container.message).value.text, message) ==>
              container.message == Some(DialogMessage(WithdrawnText(old(container.message).value.text, message), None))
    ensures !(old(container.message).Some? && Contains(old(container.message).value.text, message)) ==>
              container.message == old(container.message)
  {
    if container.message.Some? && Contains(container.message.value.text, message) {
      var messageWithLineBreak := message + "\n";
      var searchText := if Contains(container.message.value.text, messageWithLineBreak) then messageWithLineBreak else message;
      container.message := Some(DialogMessage(RemoveFirst(container.message.value.text, searchText), None));
    }
  }

  /**
   * A text-changed listener: once its rule holds again, the rule's message
   * is withdrawn from the container; while it fails the message stays.
   */
  method HandleTextChanged(container: Container, listener: Disposable, ui: UiState)
    modifies container
    ensures var before := old(container.message);
      if Evaluate(listener.rule, ui).valid && before.Some? && Contains(before.value.text, RuleMessage(listener.rule)) then
        container.message == Some(DialogMessage(WithdrawnText(before.value.text, RuleMessage(listener.rule)), None))
      else
        container.message == before
  {
    if Evaluate(listener.rule, ui).valid {
      RemoveValidationMessage(container, RuleMessage(listener.rule));
    }
  }

  // ---------------------------------------------------------------------
  // Reading the inputs back into the model

  /** The deployment model's property store; its own class is not part of this model. */
  class Model {
    var properties: map<string, Option<string>>
    /** Whether the properties have been exported as environment variables for a notebook. */
    var environmentExported: bool

    constructor ()
      ensures properties == map[] && !environmentExported
    {
      properties := map[];
      environmentExported := false;
    }

    method SetPropertyValue(key: string, value: Option<string>)
      modifies this
      ensures properties == old(properties)[key := value]
      ensures environmentExported == old(environmentExported)
    {
      properties := properties[key := value];
    }

    method SetEnvironmentVariables()
      modifies this
      ensures properties == old(properties) && environmentExported
    {
      environmentExported := true;
    }
  }

  /** The registered input components by variable name, in insertion order. */
  type InputComponents = seq<(string, Widget)>

  function Names(ic: InputComponents): seq<string>
    decreases |ic|
  {
    if ic == [] then [] else [ic[0].0] + Names(ic[1..])
  }

  lemma {:induction false} NamesAppend(a: InputComponents, b: InputComponents)
    ensures Names(a + b) == Names(a) + Names(b)
    decreases |a|
  {
    if a == [] {
      assert a + b == b;
    } else {
      assert (a + b)[1..] == a[1..] + b;
      NamesAppend(a[1..], b);
    }
  }

  function Lookup(ic: InputComponents, name: string): Option<Widget>
    decreases |ic|
  {
    if ic == [] then None else if ic[0].0 == name then Some(ic[0].1) else Lookup(ic[1..], name)
  }

  ghost predicate DistinctNames(ic: InputComponents) {
    forall i, j :: 0 <= i < j < |ic| ==> ic[i].0 != ic[j].0
  }

  /**
   * `inputComponents[name] = component`: an existing entry is replaced in
   * place, a new name is appended; every other entry stays as it was.
   */
  function Put(ic: InputComponents, name: string, w: Widget): (r: InputComponents)
    ensures Names(r) == if name in Names(ic) then Names(ic) else Names(ic) + [name]
    ensures Lookup(r, name) == Some(w)
    ensures forall n :: n != name ==> Lookup(r, n) == Lookup(ic, n)
    decreases |ic|
  {
    if ic == [] then
      assert [(name, w)][1..] == [];
      [(name, w)]
    else if ic[0].0 == name then
      assert ([(name, w)] + ic[1..])[1..] == ic[1..];
      [(name, w)] + ic[1..]
    else
      var rest := Put(ic[1..], name, w);
      assert ([ic[0]] + rest)[1..] == rest;
      [ic[0]] + rest
  }

  /** Registering inputs one name after another keeps the names distinct. */
  lemma {:induction false} PutKeepsNamesDistinct(ic: InputComponents, name: string, w: Widget)
    requires DistinctNames(ic)
    ensures DistinctNames(Put(ic, name, w))
    decreases |ic|
  {
    NamesIndex(ic);
    NamesIndex(Put(ic, name, w));
  }

  lemma {:induction false} NamesIndex(ic: InputComponents)
    ensures |Names(ic)| == |ic|
    ensures forall i :: 0 <= i < |ic| ==> Names(ic)[i] == ic[i].0
    decreases |ic|
  {
    if ic != [] {
      NamesIndex(ic[1..]);
    }
  }

  /** A component `setModelValues` knows how to read: a checkbox, or one with a value. */
  predicate Readable(w: Widget) {
    IsInput(w) || w.Label?
  }

  /**
   * The value `setModelValues` reads from an input: "true" or "false" for a
   * checkbox, the value of an input box or label as it is, the name of a
   * dropdown's selected category or its plain value; any other component is
   * an unknown input type.
   */
  function ExtractValue(id: string, w: Widget): (r: Result<Option<string>, string>)
    ensures r.Err? <==> !Readable(w)
    ensures r.Err? ==> r.error == UnknownInputTypeMessage(id)
    ensures w.CheckBox? ==> r == Ok(Some(if IsTrue(w.checked) then "true" else "false"))
    ensures w.InputBox? ==> r == Ok(w.value)
    ensures w.Label? ==> r == Ok(w.text)
    ensures w.DropDown? ==> r == Ok(match w.selected
                                    case None => None
                                    case Some(Plain(text)) => Some(text)
                                    case Some(Category(c)) => Some(c.name))
  {
    match w
    case CheckBox(_, checked, _) => Ok(Some(if IsTrue(checked) then "true" else "false"))
    case InputBox(_, _, value, _, _, _, _, _, _) => Ok(value)
    case Label(text, _, _, _, _) => Ok(text)
    case DropDown(_, _, selected, _) =>
      Ok(match selected
         case None => None
         case Some(Plain(text)) => Some(text)
         case Some(Category(c)) => Some(c.name))
    case _ => Err(UnknownInputTypeMessage(id))
  }

  /**
   * A field the user leaves alone hands its default value to the model; a
   * checkbox hands "true" exactly when its default is "true".
   */
  lemma {:induction false} UntouchedFieldKeepsDefault(f: FieldInfo, now: string)
    requires f.fieldType in {Text, Number, Options, Checkbox}
    ensures var out := ProcessField(f, now).value;
      var r := ExtractValue(VariableKey(f), out.events[0].component);
      r == Ok(if f.fieldType == Checkbox then Some(if f.defaultValue == Some("true") then "true" else "false")
              else f.defaultValue)
  {
  }

  /** The index of the first component `setModelValues` cannot read, or the length of the list. */
  function FirstUnreadable(ic: InputComponents, ui: UiState): (k: nat)
    ensures k <= |ic|
    ensures forall j :: 0 <= j < k ==> Readable(Current(ic[j].1, ui))
    ensures k < |ic| ==> !Readable(Current(ic[k].1, ui))
    decreases |ic|
  {
    if ic == [] then 0
    else if !Readable(Current(ic[0].1, ui)) then 0
    else 1 + FirstUnreadable(ic[1..], ui)
  }

  /** The value written for one component: what `ExtractValue` reads, undefined for an unreadable one. */
  function ReadValue(id: string, w: Widget, ui: UiState): (v: Option<string>)
    ensures ExtractValue(id, Current(w, ui)).Ok? ==> v == ExtractValue(id, Current(w, ui)).value
  {
    var r := ExtractValue(id, Current(w, ui));
    if r.Ok? then r.value else None
  }

  /** Name and value written for each component, in order. */
  function Readings(ic: InputComponents, ui: UiState): (ps: seq<(string, Option<string>)>)
    ensures |ps| == |ic|
    ensures forall i :: 0 <= i < |ic| ==> ps[i] == (ic[i].0, ReadValue(ic[i].0, ic[i].1, ui))
  {
    seq(|ic|, i requires 0 <= i < |ic| => (ic[i].0, ReadValue(ic[i].0, ic[i].1, ui)))
  }

  /** The map that results from writing a list of name/value pairs in order, later writes winning. */
  function MapOfWrites(ps: seq<(string, Option<string>)>): map<string, Option<string>>
    decreases |ps|
  {
    if ps == [] then map[] else MapOfWrites(ps[..|ps| - 1])[ps[|ps| - 1].0 := ps[|ps| - 1].1]
  }

  /** The properties written for a list of components. */
  function ExtractedMap(ic: InputComponents, ui: UiState): map<string, Option<string>> {
    MapOfWrites(Readings(ic, ui))
  }

  lemma {:induction false} MapOfWritesContents(ps: seq<(string, Option<string>)>)
    requires forall i, j :: 0 <= i < j < |ps| ==> ps[i].0 != ps[j].0
    ensures MapOfWrites(ps).Keys == set i | 0 <= i < |ps| :: ps[i].0
    ensures forall i :: 0 <= i < |ps| ==> MapOfWrites(ps)[ps[i].0] == ps[i].1
    decreases |ps|
  {
    if ps != [] {
      var init := ps[..|ps| - 1];
      var last := ps[|ps| - 1];
      MapOfWritesContents(init);
      assert (set i | 0 <= i < |ps| :: ps[i].0) == (set i | 0 <= i < |init| :: init[i].0) + {last.0} by {
        forall i | 0 <= i < |init| ensures init[i].0 == ps[i].0 {
        }
      }
      forall i | 0 <= i < |ps| ensures MapOfWrites(ps)[ps[i].0] == ps[i].1 {
        if i < |init| {
          assert init[i] == ps[i];
        }
      }
    }
  }

  lemma {:induction false} ExtractedMapSnoc(ic: InputComponents, ui: UiState, i: nat)
    requires i < |ic|
    ensures ExtractedMap(ic[..i + 1], ui) == ExtractedMap(ic[..i], ui)[ic[i].0 := ReadValue(ic[i].0, ic[i].1, ui)]
  {
    var ps := Readings(ic[..i + 1], ui);
    assert ps[..i] == Readings(ic[..i], ui);
  }

  /**
   * With distinct names, every component contributes exactly one property:
   * its own name, with the value read from its current state.
   */
  lemma {:induction false} ExtractedMapContents(ic: InputComponents, ui: UiState)
    requires DistinctNames(ic)
    ensures ExtractedMap(ic, ui).Keys == set i | 0 <= i < |ic| :: ic[i].0
    ensures forall i :: 0 <= i < |ic| ==> ExtractedMap(ic, ui)[ic[i].0] == ReadValue(ic[i].0, ic[i].1, ui)
  {
    var ps := Readings(ic, ui);
    MapOfWritesContents(ps);
    assert (set i | 0 <= i < |ps| :: ps[i].0) == (set i | 0 <= i < |ic| :: ic[i].0);
  }

  /**
   * `setModelValues`: every registered component in turn writes its value
   * to the model under its name; a component of no known input type stops
   * the loop with an error naming it, after the writes before it.
   */
  method SetModelValues(inputs: InputComponents, ui: UiState, model: Model) returns (error: Option<string>)
    modifies model
    ensures var k := FirstUnreadable(inputs, ui);
      && model.properties == old(model.properties) + ExtractedMap(inputs[..k], ui)
      && model.environmentExported == old(model.environmentExported)
      && (error.None? <==> k == |inputs|)
      && (k < |inputs| ==> error == Some(UnknownInputTypeMessage(inputs[k].0)))
  {
    var i := 0;
    while i < |inputs|
      invariant 0 <= i <= |inputs|
      invariant forall j :: 0 <= j < i ==> Readable(Current(inputs[j].1, ui))
      invariant model.properties == old(model.properties) + ExtractedMap(inputs[..i], ui)
      invariant model.environmentExported == old(model.environmentExported)
    {
      var key := inputs[i].0;
      var input := Current(inputs[i].1, ui);
      var value := ExtractValue(key, input);
      if value.Err? {
        FirstUnreadableIs(inputs, ui, i);
        return Some(value.error);
      }
      assert Readable(input);
      forall j | 0 <= j < i + 1 ensures Readable(Current(inputs[j].1, ui)) {}
      ExtractedMapSnoc(inputs, ui, i);
      assert value.value == ReadValue(key, inputs[i].1, ui);
      UpdateAfterMerge(model.properties, old(model.properties), ExtractedMap(inputs[..i], ui), key, value.value);
      model.SetPropertyValue(key, value.value);
      i := i + 1;
    }
    FirstUnreadableIs(inputs, ui, i);
    assert inputs[..i] == inputs;
    error := None;
  }

  /** Writing a key after merging equals merging with the write already made. */
  lemma {:induction false} UpdateAfterMerge(m: map<string, Option<string>>, a: map<string, Option<string>>, b: map<string, Option<string>>,
                         k: string, v: Option<string>)
    requires m == a + b
    ensures m[k := v] == a + b[k := v]
  {
  }

  lemma {:induction false} FirstUnreadableIs(ic: InputComponents, ui: UiState, i: nat)
    requires i <= |ic|
    requires forall j :: 0 <= j < i ==> Readable(Current(ic[j].1, ui))
    requires i < |ic| ==> !Readable(Current(ic[i].1, ui))
    ensures FirstUnreadable(ic, ui) == i
  {
  }

  /** `isInputBoxEmpty`: the box would hand the model nothing or the empty string. */
  function IsInputBoxEmpty(w: Widget): (b: bool)
    requires w.InputBox?
    ensures b <==> ExtractValue("", w) == Ok(None) || ExtractValue("", w) == Ok(Some(""))
  {
    w.value.None? || w.value == Some("")
  }
}
