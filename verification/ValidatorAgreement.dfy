/** When the two validators of the command language agree: validateCommand in Go and the worker's own checks. */
module ValidatorAgreement {
  import opened Wrappers
  import opened Commands
  import opened WorkerCommands

  // ---- the conditions, in terms of the command ----

  /** A group with selectors none of which has a value. */
  predicate Hollow(t: Target) {
    t.group.Some? && t.group.value.selectors != [] && !HasValued(t.group)
  }

  predicate Origin(p: Option<Point>) { p == Some(Point(0.0, 0.0)) }

  predicate Grouped(t: Target) { t.group.Some? && t.group.value.selectors != [] }

  predicate SelectorValued(t: Target) { t.selector.Some? && Valued(t.selector.value) }

  /** One end of a drag the worker cannot use: a hollow group, or no selector at all and the point (0,0). */
  predicate BadEnd(t: Target, p: Option<Point>) {
    Hollow(t) || (!Grouped(t) && !SelectorValued(t) && Origin(p))
  }

  /** The valid commands the worker turns down all the same. */
  predicate Excluded(op: Operation) {
    match op
    case TypeText(t, _) => SelectorValued(t) && Hollow(t)
    case Press(t, _) => SelectorValued(t) && Hollow(t)
    case Scroll(t, _, _) => SelectorValued(t) && Hollow(t)
    case Screenshot(t) => SelectorValued(t) && Hollow(t)
    case MouseMove(point, path) =>
      if path == [] then Origin(point) else forall i :: 0 <= i < |path| ==> path[i] == Point(0.0, 0.0)
    case MouseClick(point) => Origin(point)
    case Drag(s, sp, d, dp) => BadEnd(s, sp) || BadEnd(d, dp)
    case UploadFile(_, _) => true
    case Evaluate(_, _) => true
    case Click(t, _) => Hollow(t)
    case Fill(t, _) => Hollow(t)
    case SetChecked(t, _) => Hollow(t)
    case Clear(t) => Hollow(t)
    case Focus(t) => Hollow(t)
    case Blur(t) => Hollow(t)
    case Hover(t, _) => Hollow(t)
    case WaitForSelector(t) => Hollow(t)
    case ExtractText(t) => Hollow(t)
    case CountElements(t) => Hollow(t)
    case GetAttribute(t, _) => Hollow(t)
    case ExtractElement(t) => Hollow(t)
    case SelectOption(t, _, _, _) => Hollow(t)
    case SubmitForm(t) => Hollow(t)
    case _ => false
  }

  /** The invalid commands the worker would carry out. */
  predicate Tolerated(op: Operation) {
    match op
    case Scroll(t, dx, dy) => !HasSelector(t) && dx == 0.0 && dy == 0.0
    case SelectOption(t, values, labels, indexes) => HasSelector(t) && !Hollow(t) && values == [] && labels == [] && indexes == []
    case WaitForNetworkRequest(timeout) => timeout.Some? && timeout.value < 0
    case GetNetworkRequests(limit) => limit < 0
    case _ => false
  }

  // ---- what the JSON shows ----

  lemma SelectorShown(s: Selector)
    ensures Truthy(Member(Some(OfSelector(s)), FValue)) <==> Valued(s)
    ensures Valued(s) ==> Truthy(Some(OfSelector(s)))
  {
  }

  lemma {:induction false} ValuedSelectorsShown(selectors: seq<Selector>)
    ensures WithValue(OfSelectors(selectors)) == [] <==> forall i :: 0 <= i < |selectors| ==> !Valued(selectors[i])
    ensures forall j :: 0 <= j < |WithValue(OfSelectors(selectors))| ==> ShowsValue(WithValue(OfSelectors(selectors))[j])
  {
    if selectors != [] {
      SelectorShown(selectors[0]);
      ValuedSelectorsShown(selectors[1..]);
      assert OfSelectors(selectors)[1..] == OfSelectors(selectors[1..]);
    }
  }

  predicate ShowsValue(v: Json) { v.Obj? && Truthy(Some(v)) && Truthy(Member(Some(v), FValue)) }

  lemma PointShown(p: Point)
    ensures Truthy(Some(OfPoint(p))) <==> p != Point(0.0, 0.0)
  {
    var m := Put(Put(map[], FX, NumField(p.x)), FY, NumField(p.y));
    assert p.x != 0.0 ==> FX in m;
    assert p.y != 0.0 ==> FY in m;
  }

  /** The payload shows the target under the two names. */
  ghost predicate Shows(m: map<Field, Json>, selector: Field, group: Field, t: Target) {
    && Lookup(m, selector) == (if t.selector.None? then None else Some(OfSelector(t.selector.value)))
    && Lookup(m, group) == (if t.group.None? then None else Some(OfGroup(t.group.value)))
  }

  lemma GroupShown(m: map<Field, Json>, selector: Field, group: Field, t: Target)
    requires Shows(m, selector, group, t)
    ensures Truthy(Lookup(m, group)) && Truthy(Member(Lookup(m, group), FSelectors)) <==> Grouped(t)
    ensures Truthy(Member(Lookup(m, group), FSelectors)) <==> Grouped(t)
    ensures Grouped(t) ==> Items(Member(Lookup(m, group), FSelectors)) == OfSelectors(t.group.value.selectors)
    ensures !Grouped(t) ==> Items(Member(Lookup(m, group), FSelectors)) == []
  {
    if Grouped(t) {
      assert FSelectors in OfGroup(t.group.value).members;
    }
  }

  // ---- locators ----

  /** What resolving a target comes to when nothing on the page goes wrong. */
  predicate Resolvable(t: Target) { if Grouped(t) then !Hollow(t) else SelectorValued(t) }

  lemma {:induction false} ResolveAllRaises(page: Page, selectors: seq<Json>, timeout: Option<Json>)
    requires IsPage(page) && forall j :: 0 <= j < |selectors| ==> ShowsValue(selectors[j])
    ensures !TurnedDown(ResolveAll(page, selectors, timeout))
    ensures page == QUIET ==> ResolveAll(page, selectors, timeout) == None
  {
    if selectors != [] {
      var s := WithDefaultTimeout(selectors[0], timeout);
      assert ShowsValue(selectors[0]);
      assert FValue in s.members && s.members[FValue] == selectors[0].members[FValue];
      ResolveAllRaises(page, selectors[1..], timeout);
    }
  }

  lemma GroupRaises(page: Page, m: map<Field, Json>, selector: Field, group: Field, t: Target)
    requires IsPage(page) && Shows(m, selector, group, t) && Grouped(t)
    ensures Hollow(t) ==> ResolveLocatorGroup(page, Lookup(m, group)) == Some(Refused)
    ensures !Hollow(t) ==> !TurnedDown(ResolveLocatorGroup(page, Lookup(m, group)))
    ensures !Hollow(t) && page == QUIET ==> ResolveLocatorGroup(page, Lookup(m, group)) == None
  {
    GroupShown(m, selector, group, t);
    ValuedSelectorsShown(t.group.value.selectors);
    ResolveAllRaises(page, WithValue(Items(Member(Lookup(m, group), FSelectors))), Member(Lookup(m, group), FTimeout));
  }

  lemma LoneRaises(page: Page, selector: Option<Json>, t: Target)
    requires IsPage(page) && selector == if t.selector.None? then None else Some(OfSelector(t.selector.value))
    ensures LocatorForSelector(selector) == if SelectorValued(t) then None else Some(Refused)
    ensures !SelectorValued(t) ==> ResolveLocator(page, selector) == Some(Refused)
    ensures SelectorValued(t) ==> !TurnedDown(ResolveLocator(page, selector))
    ensures SelectorValued(t) && page == QUIET ==> ResolveLocator(page, selector) == None
  {
    if t.selector.Some? {
      SelectorShown(t.selector.value);
    }
  }

  lemma ResolveNamedRaises(page: Page, m: map<Field, Json>, selector: Field, group: Field, t: Target)
    requires IsPage(page) && Shows(m, selector, group, t)
    ensures !Resolvable(t) ==> ResolveNamed(page, m, selector, group) == Some(Refused)
    ensures Resolvable(t) ==> !TurnedDown(ResolveNamed(page, m, selector, group))
    ensures Resolvable(t) && page == QUIET ==> ResolveNamed(page, m, selector, group) == None
  {
    GroupShown(m, selector, group, t);
    if Grouped(t) {
      GroupRaises(page, m, selector, group, t);
    } else {
      LoneRaises(page, Lookup(m, selector), t);
    }
  }

  lemma ResolveClickRaises(page: Page, m: map<Field, Json>, t: Target)
    requires IsPage(page) && Shows(m, FSelector, FSelectorGroup, t)
    ensures !Resolvable(t) ==> ResolveClickLocator(page, m) == Some(Refused)
    ensures Resolvable(t) ==> !TurnedDown(ResolveClickLocator(page, m))
    ensures Resolvable(t) && page == QUIET ==> ResolveClickLocator(page, m) == None
  {
    GroupShown(m, FSelector, FSelectorGroup, t);
    if Grouped(t) {
      GroupRaises(page, m, FSelector, FSelectorGroup, t);
    } else {
      LoneRaises(page, Lookup(m, FSelector), t);
    }
  }

  lemma CommandLocatorShown(m: map<Field, Json>, t: Target)
    requires Shows(m, FSelector, FSelectorGroup, t)
    ensures HasCommandLocator(m) <==> HasSelector(t)
  {
    GroupShown(m, FSelector, FSelectorGroup, t);
    if t.selector.Some? {
      SelectorShown(t.selector.value);
    }
    if Grouped(t) {
      var items := OfSelectors(t.group.value.selectors);
      forall i | 0 <= i < |items| ensures Truthy(Member(Some(items[i]), FValue)) <==> Valued(t.group.value.selectors[i]) {
        SelectorShown(t.group.value.selectors[i]);
      }
    }
  }

  // ---- handlers ----

  /** `r` is what an operation that the worker turns down exactly under `bad` may raise. */
  ghost predicate Judged(page: Page, r: Option<Raise>, bad: bool) {
    && (TurnedDown(r) ==> bad)
    && (page == QUIET ==> r == if bad then Some(Refused) else None)
  }

  lemma OnLocatorRaises(page: Page, m: map<Field, Json>, t: Target)
    requires IsPage(page) && Shows(m, FSelector, FSelectorGroup, t)
    ensures Judged(page, OnLocator(page, m), !Resolvable(t))
  {
    ResolveNamedRaises(page, m, FSelector, FSelectorGroup, t);
  }

  lemma OnOptionalLocatorRaises(page: Page, m: map<Field, Json>, t: Target)
    requires IsPage(page) && Shows(m, FSelector, FSelectorGroup, t)
    ensures Judged(page, OnOptionalLocator(page, m), SelectorValued(t) && Hollow(t))
  {
    CommandLocatorShown(m, t);
    OnLocatorRaises(page, m, t);
  }

  /** The operation is on this target and says nothing more. */
  predicate OnTarget(op: Operation, t: Target) {
    match op
    case Clear(u) => u == t case Focus(u) => u == t case Blur(u) => u == t case WaitForSelector(u) => u == t
    case ExtractText(u) => u == t case CountElements(u) => u == t case ExtractElement(u) => u == t case Screenshot(u) => u == t
    case SubmitForm(u) => u == t case _ => false
  }

  /** The operation is on this target and says more. */
  predicate OnTargetWith(op: Operation, t: Target) {
    match op
    case Click(u, _) => u == t case Fill(u, _) => u == t case SetChecked(u, _) => u == t case TypeText(u, _) => u == t
    case Press(u, _) => u == t case Hover(u, _) => u == t case Scroll(u, _, _) => u == t case GetAttribute(u, _) => u == t
    case SelectOption(u, _, _, _) => u == t case _ => false
  }

  lemma TargetAloneShown(op: Operation, t: Target)
    requires OnTarget(op, t)
    ensures Shows(Payload(op), FSelector, FSelectorGroup, t)
  {
  }

  lemma TargetWithShown(op: Operation, t: Target)
    requires OnTargetWith(op, t) && !op.SelectOption?
    ensures Shows(Payload(op), FSelector, FSelectorGroup, t)
  {
  }

  lemma SelectOptionShown(t: Target, values: seq<string>, labels: seq<string>, indexes: seq<int>)
    ensures Shows(Payload(SelectOption(t, values, labels, indexes)), FSelector, FSelectorGroup, t)
  {
  }

  lemma TargetShown(op: Operation, t: Target)
    requires OnTarget(op, t) || OnTargetWith(op, t)
    ensures Shows(Payload(op), FSelector, FSelectorGroup, t)
  {
    if OnTarget(op, t) {
      TargetAloneShown(op, t);
    } else if op.SelectOption? {
      SelectOptionShown(t, op.values, op.labels, op.indexes);
    } else {
      TargetWithShown(op, t);
    }
  }

  lemma PointFieldShown(p: Option<Point>)
    ensures Truthy(PointField(p)) <==> p.Some? && !Origin(p)
  {
    if p.Some? {
      PointShown(p.value);
    }
  }

  lemma MouseMoveJudged(page: Page, point: Option<Point>, path: seq<Point>)
    requires IsPage(page)
    ensures Judged(page, Execute(page, MouseMove(point, path), Payload(MouseMove(point, path))),
                   if path == [] then point.None? || Origin(point) else forall i :: 0 <= i < |path| ==> path[i] == Point(0.0, 0.0))
  {
    var m := Payload(MouseMove(point, path));
    assert Items(Lookup(m, FPath)) == OfPoints(path) && Lookup(m, FPoint) == PointField(point);
    PathShown(path);
    PointFieldShown(point);
  }

  lemma PathShown(path: seq<Point>)
    ensures AnyPoint(OfPoints(path)) <==> exists i :: 0 <= i < |path| && path[i] != Point(0.0, 0.0)
  {
    forall i | 0 <= i < |path| ensures Truthy(Some(OfPoints(path)[i])) <==> path[i] != Point(0.0, 0.0) {
      PointShown(path[i]);
    }
  }

  lemma LoneShown(selector: Option<Json>, t: Target)
    requires selector == if t.selector.None? then None else Some(OfSelector(t.selector.value))
    ensures Truthy(Member(selector, FValue)) <==> SelectorValued(t)
  {
    if t.selector.Some? {
      SelectorShown(t.selector.value);
    }
  }

  lemma EndShown(m: map<Field, Json>, selector: Field, group: Field, t: Target)
    requires Shows(m, selector, group, t)
    ensures DragsFrom(m, selector, group) <==> SelectorValued(t) || Grouped(t)
  {
    var lone, grouped := Lookup(m, selector), Truthy(Member(Lookup(m, group), FSelectors));
    assert grouped <==> Grouped(t) by { GroupShown(m, selector, group, t); }
    LoneShown(lone, t);
  }

  predicate UselessEnd(t: Target, p: Option<Point>) {
    Hollow(t) || (!Grouped(t) && !SelectorValued(t) && (p.None? || Origin(p)))
  }

  lemma DragSourceShown(s: Target, sp: Option<Point>, d: Target, dp: Option<Point>)
    ensures var m := Payload(Drag(s, sp, d, dp));
            Shows(m, FSourceSelector, FSourceSelectorGroup, s) && Lookup(m, FSourcePoint) == PointField(sp)
  {
  }

  lemma DragTargetShown(s: Target, sp: Option<Point>, d: Target, dp: Option<Point>)
    ensures var m := Payload(Drag(s, sp, d, dp));
            Shows(m, FTargetSelector, FTargetSelectorGroup, d) && Lookup(m, FTargetPoint) == PointField(dp)
  {
  }

  /** One end of a drag: its locator is refused, or it has none and no point either. */
  lemma EndJudged(page: Page, m: map<Field, Json>, selector: Field, group: Field, point: Field, t: Target, p: Option<Point>)
    requires IsPage(page) && Shows(m, selector, group, t) && Lookup(m, point) == PointField(p)
    ensures UselessEnd(t, p) <==>
            if DragsFrom(m, selector, group) then ResolveNamed(page, m, selector, group) == Some(Refused) else !Truthy(Lookup(m, point))
    ensures DragsFrom(m, selector, group) && !UselessEnd(t, p) ==>
              !TurnedDown(ResolveNamed(page, m, selector, group)) && (page == QUIET ==> ResolveNamed(page, m, selector, group) == None)
  {
    EndShown(m, selector, group, t);
    PointFieldShown(p);
    ResolveNamedRaises(page, m, selector, group, t);
  }

  lemma DragJudged(page: Page, m: map<Field, Json>, s: Target, sp: Option<Point>, d: Target, dp: Option<Point>)
    requires IsPage(page)
    requires Shows(m, FSourceSelector, FSourceSelectorGroup, s) && Lookup(m, FSourcePoint) == PointField(sp)
    requires Shows(m, FTargetSelector, FTargetSelectorGroup, d) && Lookup(m, FTargetPoint) == PointField(dp)
    ensures Judged(page, DragRaises(page, m), UselessEnd(s, sp) || UselessEnd(d, dp))
  {
    EndJudged(page, m, FSourceSelector, FSourceSelectorGroup, FSourcePoint, s, sp);
    EndJudged(page, m, FTargetSelector, FTargetSelectorGroup, FTargetPoint, d, dp);
  }

  /** The text or key an operation on an optional target cannot do without. */
  predicate NamesNothing(op: Operation) {
    match op
    case TypeText(_, text) => text == ""
    case Press(_, key) => key == ""
    case _ => false
  }

  lemma OptionalRaises(page: Page, op: Operation)
    requires op.TypeText? || op.Press? || op.Scroll? || op.Screenshot?
    ensures Execute(page, op, Payload(op)) == if NamesNothing(op) then Some(Refused) else OnOptionalLocator(page, Payload(op))
  {
  }

  lemma OptionalJudged(page: Page, op: Operation, t: Target)
    requires IsPage(page)
    requires op.TypeText? || op.Press? || op.Scroll? || op.Screenshot?
    requires op.target == t
    ensures Judged(page, Execute(page, op, Payload(op)), NamesNothing(op) || (SelectorValued(t) && Hollow(t)))
  {
    OptionalRaises(page, op);
    TargetShown(op, t);
    OnOptionalLocatorRaises(page, Payload(op), t);
  }

  /** Everything the worker turns down, for every operation but the two it never accepts. */
  predicate Unacceptable(op: Operation) {
    if !ValidOperation(op) then !Tolerated(op) else Excluded(op)
  }

  /** The operations that need a target and nothing else of the page. */
  predicate Located(op: Operation) {
    op.Click? || op.Fill? || op.SetChecked? || op.Clear? || op.Focus? || op.Blur? || op.Hover? || op.WaitForSelector? ||
    op.ExtractText? || op.CountElements? || op.GetAttribute? || op.ExtractElement? || op.SelectOption? || op.SubmitForm?
  }

  /** Apart from clicks and attributes, an operation on a target resolves it and acts. */
  lemma LocatedRaises(page: Page, op: Operation, m: map<Field, Json>)
    requires Located(op) && !op.Click? && !op.GetAttribute?
    ensures Execute(page, op, m) == OnLocator(page, m)
  {
  }

  lemma AttributeRaises(page: Page, t: Target, name: string)
    ensures var m := Payload(GetAttribute(t, name));
            Execute(page, GetAttribute(t, name), m) == if name == "" then Some(Refused) else OnLocator(page, m)
  {
    var m := Payload(GetAttribute(t, name));
    assert Lookup(m, FName) == StrField(name);
  }

  lemma LocatedJudged(page: Page, op: Operation)
    requires IsPage(page) && Located(op)
    ensures Judged(page, Execute(page, op, Payload(op)), (op.GetAttribute? && op.name == "") || !Resolvable(op.target))
  {
    TargetShown(op, op.target);
    if op.Click? {
      ResolveClickRaises(page, Payload(op), op.target);
    } else {
      OnLocatorRaises(page, Payload(op), op.target);
      if op.GetAttribute? {
        AttributeRaises(page, op.target, op.name);
      } else {
        LocatedRaises(page, op, Payload(op));
      }
    }
  }

  lemma ResolvableTarget(t: Target)
    ensures Resolvable(t) <==> HasSelector(t) && !Hollow(t)
  {
  }

  lemma LocatedUnacceptable(op: Operation)
    requires Located(op)
    ensures Unacceptable(op) <==> (op.GetAttribute? && op.name == "") || !Resolvable(op.target)
  {
    ResolvableTarget(op.target);
  }

  lemma TextJudged(page: Page, op: Operation)
    requires IsPage(page)
    requires op.Navigate? || op.WaitForText? || op.WaitForUrl? || op.WaitForTimeout? || op.Evaluate? || op.MouseClick?
    ensures Judged(page, Execute(page, op, Payload(op)), Unacceptable(op))
  {
    if op.MouseClick? {
      PointFieldShown(op.point);
    }
  }

  lemma OperationJudged(page: Page, op: Operation)
    requires IsPage(page) && !op.UploadFile?
    ensures Judged(page, Execute(page, op, Payload(op)), Unacceptable(op))
  {
    if Located(op) {
      LocatedJudged(page, op);
      LocatedUnacceptable(op);
    } else if op.TypeText? || op.Press? || op.Scroll? || op.Screenshot? {
      OptionalJudged(page, op, op.target);
      assert SelectorValued(op.target) ==> HasSelector(op.target);
    } else if op.MouseMove? {
      MouseMoveJudged(page, op.point, op.path);
    } else if op.Drag? {
      DragSourceShown(op.source, op.sourcePoint, op.destination, op.destinationPoint);
      DragTargetShown(op.source, op.sourcePoint, op.destination, op.destinationPoint);
      DragJudged(page, Payload(op), op.source, op.sourcePoint, op.destination, op.destinationPoint);
      EndsUnacceptable(op);
    } else if op.Navigate? || op.WaitForText? || op.WaitForUrl? || op.WaitForTimeout? || op.Evaluate? || op.MouseClick? {
      TextJudged(page, op);
    }
  }

  lemma EndsUnacceptable(op: Operation)
    requires op.Drag?
    ensures Unacceptable(op) <==> UselessEnd(op.source, op.sourcePoint) || UselessEnd(op.destination, op.destinationPoint)
  {
    assert HasSelector(op.source) ==> SelectorValued(op.source) || Grouped(op.source);
    assert HasSelector(op.destination) ==> SelectorValued(op.destination) || Grouped(op.destination);
  }

  // ---- the theorems ----

  /** A valid command outside the excluded cases is never turned down by the worker, whatever the page does. */
  lemma ValidCommandsAreAccepted(page: Page, command: Command)
    requires IsPage(page) && ValidCommand(command) && !Excluded(command.operation.value)
    ensures !TurnedDown(ExecuteCommand(page, command))
  {
    OperationJudged(page, command.operation.value);
  }

  /** The excluded cases are exact: on a page where nothing goes wrong a valid command is turned down if and only if it is one. */
  lemma AgreementIsExact(command: Command)
    requires ValidCommand(command)
    ensures TurnedDown(ExecuteCommand(QUIET, command)) <==> Excluded(command.operation.value)
  {
    if !command.operation.value.UploadFile? {
      OperationJudged(QUIET, command.operation.value);
    }
  }

  /** In the other direction: of the commands Go refuses, the worker refuses all but the tolerated ones. */
  lemma InvalidCommandsAreTurnedDown(command: Command)
    requires !ValidCommand(command)
    ensures TurnedDown(ExecuteCommand(QUIET, command)) <==>
            command.operation.None? || !Tolerated(command.operation.value)
  {
    if command.operation.Some? && !command.operation.value.UploadFile? {
      OperationJudged(QUIET, command.operation.value);
    }
  }

  /** So the tolerated commands are exactly those that Go refuses and the worker would carry out. */
  lemma ToleratedIff(command: Command)
    requires command.operation.Some?
    ensures Tolerated(command.operation.value) <==> !ValidCommand(command) && !TurnedDown(ExecuteCommand(QUIET, command))
  {
    if !ValidCommand(command) {
      InvalidCommandsAreTurnedDown(command);
    }
  }
}
