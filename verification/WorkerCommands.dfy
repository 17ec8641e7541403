/**
 The worker's own checks (`internal/adapters/runtime/playwrightworker/scripts/`).  A command reaches the
 Python code as the JSON that protojson renders: a scalar with its default value and an empty list are left
 out, a message that is set is an object even when it has no members -- and an empty object is false in
 Python.  What Playwright does is an oracle; the question is when the worker itself refuses a command that
 passed validation in Go.
 */
module WorkerCommands {
  import opened Wrappers
  import opened Commands

  // ---- JSON ----

  datatype Field =
    | FKind | FValue | FRoleName | FExact | FTimeout | FSelectors | FRequireAll | FX | FY
    | FSelector | FSelectorGroup | FSourceSelector | FSourceSelectorGroup | FTargetSelector | FTargetSelectorGroup
    | FPosition | FPoint | FPath | FSourcePoint | FTargetPoint | FDeltaX | FDeltaY
    | FUrl | FText | FKey | FName | FUrlPattern | FDuration | FLimit | FChecked | FValues | FLabels | FIndexes
    | FFileSecretRefs | FScriptRef | FInlineExpression | FExpression

  /** `Span` stands for the string protojson renders a duration as. */
  datatype Json =
    | Bool(b: bool) | Num(r: real) | Str(s: string) | Span(ns: int)
    | Arr(items: seq<Json>) | Obj(members: map<Field, Json>)

  function Put(m: map<Field, Json>, f: Field, v: Option<Json>): map<Field, Json> {
    if v.None? then m else m[f := v.value]
  }

  function StrField(s: string): Option<Json> { if s == "" then None else Some(Str(s)) }
  function NumField(r: real): Option<Json> { if r == 0.0 then None else Some(Num(r)) }
  function BoolField(b: bool): Option<Json> { if b then Some(Bool(b)) else None }
  function SpanField(d: Option<int>): Option<Json> { if d.None? then None else Some(Span(d.value)) }
  function ArrField(items: seq<Json>): Option<Json> { if items == [] then None else Some(Arr(items)) }

  function OfSelector(s: Selector): Json {
    Obj(Put(Put(Put(Put(Put(map[],
      FKind, if s.kind.KindUnspecified? then None else Some(Num(1.0))),
      FValue, StrField(s.value)),
      FRoleName, StrField(s.roleName)),
      FExact, BoolField(s.exact)),
      FTimeout, SpanField(s.timeout)))
  }

  function OfSelectors(selectors: seq<Selector>): seq<Json> {
    seq(|selectors|, i requires 0 <= i < |selectors| => OfSelector(selectors[i]))
  }

  function OfGroup(g: SelectorGroup): Json {
    Obj(Put(Put(Put(map[],
      FSelectors, ArrField(OfSelectors(g.selectors))),
      FRequireAll, BoolField(g.requireAll)),
      FTimeout, SpanField(g.timeout)))
  }

  function OfPoint(p: Point): Json {
    Obj(Put(Put(map[], FX, NumField(p.x)), FY, NumField(p.y)))
  }

  function PointField(p: Option<Point>): Option<Json> { if p.None? then None else Some(OfPoint(p.value)) }

  function WithTarget(m: map<Field, Json>, selector: Field, group: Field, t: Target): map<Field, Json> {
    Put(Put(m, selector, if t.selector.None? then None else Some(OfSelector(t.selector.value))),
        group, if t.group.None? then None else Some(OfGroup(t.group.value)))
  }

  function OfTarget(t: Target): map<Field, Json> { WithTarget(map[], FSelector, FSelectorGroup, t) }

  /** The payload object found under the operation's name. */
  function Payload(op: Operation): map<Field, Json> {
    match op
    case Navigate(url) => Put(map[], FUrl, StrField(url))
    case Click(t, position) => Put(OfTarget(t), FPosition, PointField(position))
    case Fill(t, value) => Put(OfTarget(t), FValue, StrField(value))
    case SetChecked(t, checked) => Put(OfTarget(t), FChecked, BoolField(checked))
    case TypeText(t, text) => Put(OfTarget(t), FText, StrField(text))
    case Clear(t) => OfTarget(t)
    case Press(t, key) => Put(OfTarget(t), FKey, StrField(key))
    case Focus(t) => OfTarget(t)
    case Blur(t) => OfTarget(t)
    case Hover(t, position) => Put(OfTarget(t), FPosition, PointField(position))
    case MouseMove(point, path) => Put(Put(map[], FPoint, PointField(point)), FPath, ArrField(OfPoints(path)))
    case MouseClick(point) => Put(map[], FPoint, PointField(point))
    case Drag(s, sp, d, dp) =>
      Put(Put(WithTarget(WithTarget(map[], FSourceSelector, FSourceSelectorGroup, s), FTargetSelector, FTargetSelectorGroup, d),
        FSourcePoint, PointField(sp)), FTargetPoint, PointField(dp))
    case Scroll(t, dx, dy) => Put(Put(OfTarget(t), FDeltaX, NumField(dx)), FDeltaY, NumField(dy))
    case WaitForSelector(t) => OfTarget(t)
    case WaitForText(text) => Put(map[], FText, StrField(text))
    case WaitForUrl(pattern) => Put(map[], FUrlPattern, StrField(pattern))
    case WaitForTimeout(duration) => Put(map[], FDuration, SpanField(duration))
    case WaitForNetworkRequest(timeout) => Put(map[], FTimeout, SpanField(timeout))
    case GetNetworkRequests(limit) => Put(map[], FLimit, if limit == 0 then None else Some(Num(limit as real)))
    case ExtractText(t) => OfTarget(t)
    case CountElements(t) => OfTarget(t)
    case GetAttribute(t, name) => Put(OfTarget(t), FName, StrField(name))
    case ExtractElement(t) => OfTarget(t)
    case Screenshot(t) => OfTarget(t)
    case UploadFile(t, refs) => Put(OfTarget(t), FFileSecretRefs, ArrField(seq(|refs|, _ => Obj(map[]))))
    case SelectOption(t, values, labels, indexes) =>
      Put(Put(Put(OfTarget(t),
        FValues, ArrField(seq(|values|, i requires 0 <= i < |values| => Str(values[i])))),
        FLabels, ArrField(seq(|labels|, i requires 0 <= i < |labels| => Str(labels[i])))),
        FIndexes, ArrField(seq(|indexes|, i requires 0 <= i < |indexes| => Num(indexes[i] as real))))
    case SubmitForm(t) => OfTarget(t)
    case Evaluate(scriptRef, inline) => Put(Put(map[], FScriptRef, StrField(scriptRef)), FInlineExpression, StrField(inline))
    case _ => map[]
  }

  function OfPoints(path: seq<Point>): seq<Json> {
    seq(|path|, i requires 0 <= i < |path| => OfPoint(path[i]))
  }

  // ---- Python's view of JSON ----

  /** A member of an object, None when it is missing. */
  function Lookup(m: map<Field, Json>, f: Field): Option<Json> {
    if f in m then Some(m[f]) else None
  }

  predicate Truthy(v: Option<Json>) {
    v.Some? &&
    match v.value
    case Bool(b) => b
    case Num(r) => r != 0.0
    case Str(s) => s != ""
    case Span(_) => true
    case Arr(items) => items != []
    case Obj(members) => members != map[]
  }

  /** A member of what may be missing itself. */
  function Member(v: Option<Json>, f: Field): Option<Json> {
    if v.Some? && v.value.Obj? then Lookup(v.value.members, f) else None
  }

  /** The items of a list that may be missing. */
  function Items(v: Option<Json>): seq<Json> {
    if v.Some? && v.value.Arr? then v.value.items else []
  }

  // ---- raising ----

  /** The codes a CommandFailure may carry here, and the two exceptions of Playwright. */
  datatype Raise = Refused | Unsupported | TimedOut | PageTimeout | PageError

  /** The page: what one action on it raises, if anything. */
  datatype Act = WaitFor(what: Json) | Poll(selectors: seq<Json>) | Box(what: Json) | Perform

  type Page = Act -> Option<Raise>

  /** The page raises only exceptions of its own, and a poll only the timeout of resolve_first_visible_locator. */
  ghost predicate IsPage(page: Page) {
    forall act {:trigger page(act)} :: page(act).Some? ==> page(act).value.TimedOut? || page(act).value.PageTimeout? || page(act).value.PageError?
  }

  const QUIET: Page := _ => None

  /** Two actions in sequence: the second is only reached when the first does not raise. */
  function Then(first: Option<Raise>, second: Option<Raise>): Option<Raise> {
    if first.Some? then first else second
  }

  // ---- locators: 32_locator_group.py, 30_locator_click.py, 20_input_utils.py ----

  function Required(m: map<Field, Json>, f: Field): Option<Raise> {
    if Truthy(Lookup(m, f)) then None else Some(Refused)
  }

  function LocatorForSelector(selector: Option<Json>): Option<Raise> {
    if !Truthy(selector) then Some(Refused)
    else if Truthy(Member(selector, FValue)) then None
    else Some(Refused)
  }

  function ResolveLocator(page: Page, selector: Option<Json>): Option<Raise> {
    Then(LocatorForSelector(selector),
         if Member(selector, FTimeout).Some? then page(WaitFor(selector.value)) else None)
  }

  /** The selectors of a group that have a value; the others are dropped silently. */
  function WithValue(selectors: seq<Json>): seq<Json> {
    if selectors == [] then []
    else (if Truthy(Some(selectors[0])) && Truthy(Member(Some(selectors[0]), FValue)) then [selectors[0]] else []) + WithValue(selectors[1..])
  }

  function WithDefaultTimeout(selector: Json, timeout: Option<Json>): Json {
    if timeout.None? || Member(Some(selector), FTimeout).Some? || !selector.Obj? then selector
    else Obj(selector.members[FTimeout := timeout.value])
  }

  function ResolveAll(page: Page, selectors: seq<Json>, timeout: Option<Json>): Option<Raise> {
    if selectors == [] then None
    else Then(ResolveLocator(page, Some(WithDefaultTimeout(selectors[0], timeout))), ResolveAll(page, selectors[1..], timeout))
  }

  function ResolveLocatorGroup(page: Page, group: Option<Json>): Option<Raise> {
    var selectors := WithValue(Items(Member(group, FSelectors)));
    if selectors == [] then Some(Refused)
    else if Truthy(Member(group, FRequireAll)) then ResolveAll(page, selectors, Member(group, FTimeout))
    else page(Poll(selectors))
  }

  /** resolve_command_locator, resolve_named_locator */
  function ResolveNamed(page: Page, payload: map<Field, Json>, selector: Field, group: Field): Option<Raise> {
    if Truthy(Lookup(payload, group)) && Truthy(Member(Lookup(payload, group), FSelectors))
    then ResolveLocatorGroup(page, Lookup(payload, group))
    else ResolveLocator(page, Lookup(payload, selector))
  }

  function ResolveCommandLocator(page: Page, payload: map<Field, Json>): Option<Raise> {
    ResolveNamed(page, payload, FSelector, FSelectorGroup)
  }

  /** A click resolves a lone selector without waiting for it; a text selector is matched among clickable elements. */
  function ResolveClickLocator(page: Page, payload: map<Field, Json>): Option<Raise> {
    if Truthy(Lookup(payload, FSelectorGroup)) && Truthy(Member(Lookup(payload, FSelectorGroup), FSelectors))
    then ResolveLocatorGroup(page, Lookup(payload, FSelectorGroup))
    else LocatorForSelector(Lookup(payload, FSelector))
  }

  predicate HasCommandLocator(payload: map<Field, Json>) {
    Truthy(Member(Lookup(payload, FSelector), FValue)) ||
    exists i :: 0 <= i < |Items(Member(Lookup(payload, FSelectorGroup), FSelectors))| &&
      Truthy(Member(Some(Items(Member(Lookup(payload, FSelectorGroup), FSelectors))[i]), FValue))
  }

  // ---- the handlers: 10_ to 14_handlers_*.py, 40_geometry_extract.py ----

  function OnLocator(page: Page, payload: map<Field, Json>): Option<Raise> {
    Then(ResolveCommandLocator(page, payload), page(Perform))
  }

  function OnOptionalLocator(page: Page, payload: map<Field, Json>): Option<Raise> {
    if HasCommandLocator(payload) then OnLocator(page, payload) else page(Perform)
  }

  /** Some point is left after those that are false in Python were dropped. */
  predicate AnyPoint(points: seq<Json>) {
    exists i :: 0 <= i < |points| && Truthy(Some(points[i]))
  }

  function MouseMoveRaises(page: Page, payload: map<Field, Json>): Option<Raise> {
    var path := Items(Lookup(payload, FPath));
    if (if path == [] then Truthy(Lookup(payload, FPoint)) else AnyPoint(path)) then page(Perform) else Some(Refused)
  }

  /** has_source_selector, has_target_selector */
  predicate DragsFrom(payload: map<Field, Json>, selector: Field, group: Field) {
    Truthy(Member(Lookup(payload, selector), FValue)) || Truthy(Member(Lookup(payload, group), FSelectors))
  }

  /** locator_point */
  function LocatorPoint(page: Page, payload: map<Field, Json>): Option<Raise> {
    Then(page(WaitFor(Obj(payload))), page(Box(Obj(payload))))
  }

  function DragRaises(page: Page, payload: map<Field, Json>): Option<Raise> {
    var source := DragsFrom(payload, FSourceSelector, FSourceSelectorGroup);
    var target := DragsFrom(payload, FTargetSelector, FTargetSelectorGroup);
    var resolveSource := ResolveNamed(page, payload, FSourceSelector, FSourceSelectorGroup);
    var resolveTarget := ResolveNamed(page, payload, FTargetSelector, FTargetSelectorGroup);
    if source && target then Then(resolveSource, Then(resolveTarget, page(Perform)))
    else
      Then(if source then Then(resolveSource, LocatorPoint(page, payload)) else None,
      Then(if target then Then(resolveTarget, LocatorPoint(page, payload)) else None,
           if (source || Truthy(Lookup(payload, FSourcePoint))) && (target || Truthy(Lookup(payload, FTargetPoint)))
           then page(Perform) else Some(Refused)))
  }

  /** duration_ms of a rendered duration */
  function Millis(v: Option<Json>): Option<real> {
    if v.Some? && v.value.Span? then Some(v.value.ns as real / 1000000.0) else None
  }

  /** execute_command for the operation whose name is present in the command. */
  function Execute(page: Page, op: Operation, payload: map<Field, Json>): Option<Raise> {
    match op
    case Navigate(_) => Then(Required(payload, FUrl), page(Perform))
    case Click(_, _) => Then(ResolveClickLocator(page, payload), page(Perform))
    case Fill(_, _) => OnLocator(page, payload)
    case SetChecked(_, _) => OnLocator(page, payload)
    case TypeText(_, _) => Then(Required(payload, FText), OnOptionalLocator(page, payload))
    case Clear(_) => OnLocator(page, payload)
    case Press(_, _) => Then(Required(payload, FKey), OnOptionalLocator(page, payload))
    case Focus(_) => OnLocator(page, payload)
    case Blur(_) => OnLocator(page, payload)
    case Hover(_, _) => OnLocator(page, payload)
    case MouseMove(_, _) => MouseMoveRaises(page, payload)
    case MouseClick(_) => if Truthy(Lookup(payload, FPoint)) then page(Perform) else Some(Refused)
    case Drag(_, _, _, _) => DragRaises(page, payload)
    case Scroll(_, _, _) => OnOptionalLocator(page, payload)
    case WaitForSelector(_) => OnLocator(page, payload)
    case WaitForText(_) => Then(Required(payload, FText), page(Perform))
    case WaitForUrl(_) => Then(Required(payload, FUrlPattern), page(Perform))
    case WaitForTimeout(_) =>
      var ms := Millis(Lookup(payload, FDuration));
      if ms.None? || ms.value <= 0.0 then Some(Refused) else page(Perform)
    case ExtractText(_) => OnLocator(page, payload)
    case CountElements(_) => OnLocator(page, payload)
    case GetAttribute(_, _) => Then(Required(payload, FName), OnLocator(page, payload))
    case ExtractElement(_) => OnLocator(page, payload)
    case Screenshot(_) => OnOptionalLocator(page, payload)
    case UploadFile(_, _) => Some(Unsupported)
    case SelectOption(_, _, _, _) => OnLocator(page, payload)
    case SubmitForm(_) => OnLocator(page, payload)
    case Evaluate(_, _) => Then(Required(payload, FExpression), page(Perform))
    case _ => page(Perform)
  }

  /** The dispatcher finds no handler for a command without an operation. */
  function ExecuteCommand(page: Page, command: Command): Option<Raise> {
    match command.operation
    case None => Some(Unsupported)
    case Some(op) => Execute(page, op, Payload(op))
  }

  /** The worker itself turns the command down. */
  predicate TurnedDown(r: Option<Raise>) { r == Some(Refused) || r == Some(Unsupported) }
}
