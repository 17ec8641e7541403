/** The commands a task may hold, and the validation they pass before dispatch (`internal/app/task_validation.go`, `selector_validation.go`). */
module Commands {
  import opened Wrappers
  import opened Core
  import Text

  datatype SelectorKind = KindUnspecified | Css | TextContent | Role | Label | Placeholder | TestId | XPath

  /** Durations are in nanoseconds; None is a missing duration. */
  datatype Selector = Selector(kind: SelectorKind, value: string, roleName: string, exact: bool, timeout: Option<int>)

  datatype SelectorGroup = SelectorGroup(selectors: seq<Selector>, requireAll: bool, timeout: Option<int>)

  /** The `selector` and `selector_group` fields nearly every command has. */
  datatype Target = Target(selector: Option<Selector>, group: Option<SelectorGroup>)

  datatype Point = Point(x: real, y: real)

  datatype SecretRef = SecretRef(provider: string, secretId: string, purpose: string)

  datatype Operation =
    | Navigate(url: string)
    | Reload
    | GoBack
    | GoForward
    | Click(target: Target, position: Option<Point>)
    | Fill(target: Target, value: string)
    | SetChecked(target: Target, checked: bool)
    | TypeText(target: Target, text: string)
    | Clear(target: Target)
    | Press(target: Target, key: string)
    | Focus(target: Target)
    | Blur(target: Target)
    | Hover(target: Target, position: Option<Point>)
    | MouseMove(point: Option<Point>, path: seq<Point>)
    | MouseClick(point: Option<Point>)
    | MouseDown
    | MouseUp
    | Drag(source: Target, sourcePoint: Option<Point>, destination: Target, destinationPoint: Option<Point>)
    | Scroll(target: Target, deltaX: real, deltaY: real)
    | WaitForSelector(target: Target)
    | WaitForText(text: string)
    | WaitForUrl(urlPattern: string)
    | WaitForLoadState
    | WaitForTimeout(duration: Option<int>)
    | GetPageState
    | GetCookies
    | GetStorageState
    | WaitForNetworkRequest(timeout: Option<int>)
    | GetNetworkRequests(limit: int)
    | ExtractText(target: Target)
    | CountElements(target: Target)
    | GetAttribute(target: Target, name: string)
    | ExtractElement(target: Target)
    | Screenshot(target: Target)
    | UploadFile(target: Target, refs: seq<SecretRef>)
    | SelectOption(target: Target, values: seq<string>, labels: seq<string>, indexes: seq<int>)
    | SubmitForm(target: Target)
    | Evaluate(scriptRef: string, inlineExpression: string)

  datatype Command = Command(id: string, key: string, continueOnError: bool, operation: Option<Operation>)

  // ---- validateCommand ----

  predicate Valued(s: Selector) { s.value != "" }

  predicate HasValued(group: Option<SelectorGroup>) {
    group.Some? && exists i :: 0 <= i < |group.value.selectors| && Valued(group.value.selectors[i])
  }

  predicate HasSelector(t: Target) {
    (t.selector.Some? && Valued(t.selector.value)) || HasValued(t.group)
  }

  function Nanos(duration: Option<int>): int {
    if duration.Some? then duration.value else 0
  }

  predicate ValidSecretRef(ref: SecretRef) {
    Text.Trim(ref.secretId) != "" && Text.Trim(ref.provider) != "" && Text.Trim(ref.purpose) != ""
  }

  /** The operation passes validation; every refusal carries validation_failed. */
  predicate ValidOperation(op: Operation) {
    match op
    case Navigate(url) => url != ""
    case Click(t, _) => HasSelector(t)
    case Fill(t, _) => HasSelector(t)
    case SetChecked(t, _) => HasSelector(t)
    case TypeText(_, text) => text != ""
    case Clear(t) => HasSelector(t)
    case Press(_, key) => key != ""
    case Focus(t) => HasSelector(t)
    case Blur(t) => HasSelector(t)
    case Hover(t, _) => HasSelector(t)
    case MouseMove(point, path) => !(point.None? && path == [])
    case MouseClick(point) => point.Some?
    case Drag(s, sp, d, dp) => (HasSelector(s) || sp.Some?) && (HasSelector(d) || dp.Some?)
    case Scroll(t, dx, dy) => HasSelector(t) || dx != 0.0 || dy != 0.0
    case WaitForSelector(t) => HasSelector(t)
    case WaitForText(text) => text != ""
    case WaitForUrl(pattern) => pattern != ""
    case WaitForTimeout(duration) => Nanos(duration) > 0
    case WaitForNetworkRequest(timeout) => Nanos(timeout) >= 0
    case GetNetworkRequests(limit) => limit >= 0
    case ExtractText(t) => HasSelector(t)
    case CountElements(t) => HasSelector(t)
    case GetAttribute(t, name) => HasSelector(t) && name != ""
    case ExtractElement(t) => HasSelector(t)
    case UploadFile(t, refs) => HasSelector(t) && refs != [] && forall i :: 0 <= i < |refs| ==> ValidSecretRef(refs[i])
    case SelectOption(t, values, labels, indexes) => HasSelector(t) && (values != [] || labels != [] || indexes != [])
    case SubmitForm(t) => HasSelector(t)
    case Evaluate(scriptRef, inline) => scriptRef != "" || inline != ""
    case _ => true
  }

  predicate Named(ref: SecretRef) {
    !Text.Blank(ref.secretId) && !Text.Blank(ref.provider) && !Text.Blank(ref.purpose)
  }

  /**
   The two operations the worker never carries out.  An upload needs a target and files, and of each file a
   secret's id, provider and purpose that are not blank; an evaluation needs a script, named or written out.
   */
  lemma UploadIff(target: Target, refs: seq<SecretRef>, scriptRef: string, expression: string)
    ensures ValidOperation(UploadFile(target, refs)) <==>
            HasSelector(target) && refs != [] && forall i :: 0 <= i < |refs| ==> Named(refs[i])
    ensures !ValidOperation(Evaluate(scriptRef, expression)) <==> scriptRef == "" == expression
  {
    forall i | 0 <= i < |refs| ensures ValidSecretRef(refs[i]) <==> Named(refs[i]) {
      Text.TrimsToNothingIff(refs[i].secretId);
      Text.TrimsToNothingIff(refs[i].provider);
      Text.TrimsToNothingIff(refs[i].purpose);
    }
  }

  predicate ValidCommand(command: Command) {
    command.operation.Some? && ValidOperation(command.operation.value)
  }

  predicate ValidCommands(commands: seq<Command>) {
    forall i :: 0 <= i < |commands| ==> ValidCommand(commands[i])
  }
}
