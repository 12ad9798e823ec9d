/**
 * The CA5368 rule: a class deriving directly from `System.Web.UI.Page` must
 * set `ViewStateUserKey` in `OnInit(EventArgs)` or in
 * `Page_Init(object, EventArgs)`; otherwise it gets one diagnostic, carrying
 * the class name.
 */
module SetViewStateUserKey {
  import opened Wrappers
  import opened Roslyn

  const DiagnosticId: string := "CA5368"

  /** A reported diagnostic: the rule's id and the message argument (the class name). */
  datatype Diagnostic = Diagnostic(id: string, messageArgument: string)

  /** `System.Web.UI.Page` and `System.EventArgs`, once both are resolved. */
  datatype WellKnownTypes = WellKnownTypes(page: TypeSymbol, eventArgs: TypeSymbol)

  /** `OfType<IMethodSymbol>()` over the members: the methods, in member order. */
  function MethodsOf(members: seq<Member>): (ms: seq<MethodSymbol>)
    ensures forall m :: m in ms <==> MethodMember(m) in members
  {
    if members == [] then []
    else (if members[0].MethodMember? then [members[0].symbol] else []) + MethodsOf(members[1..])
  }

  /** `OfType` on one method member keeps it. */
  lemma MethodsOfMethodMember(m: MethodSymbol)
    ensures MethodsOf([MethodMember(m)]) == [m]
  {
    assert [MethodMember(m)][1..] == [];
  }

  /** `OfType` on one non-method member drops it. */
  lemma MethodsOfOtherMember(name: string)
    ensures MethodsOf([OtherMember(name)]) == []
  {
    assert [OtherMember(name)][1..] == [];
  }

  /**
   * `OfType` distributes over concatenation; with the two one-member lemmas
   * this pins it down as the filter that keeps the methods in member order.
   */
  lemma {:induction false} MethodsOfAppend(a: seq<Member>, b: seq<Member>)
    ensures MethodsOf(a + b) == MethodsOf(a) + MethodsOf(b)
    decreases |a|
  {
    if a != [] {
      assert (a + b)[0] == a[0];
      assert (a + b)[1..] == a[1..] + b;
      MethodsOfAppend(a[1..], b);
    } else {
      assert a + b == b;
    }
  }

  /** `FirstOrDefault(p)`: the first element satisfying `p`, or `None`. */
  function FirstOrDefault<T>(s: seq<T>, p: T -> bool): (r: Option<T>)
    ensures r.None? <==> forall k :: 0 <= k < |s| ==> !p(s[k])
    ensures r.Some? ==> exists k :: 0 <= k < |s| && s[k] == r.value && p(s[k]) && forall j :: 0 <= j < k ==> !p(s[j])
  {
    if s == [] then None
    else if p(s[0]) then Some(s[0])
    else FirstOrDefault(s[1..], p)
  }

  predicate IsMatchingMethod(m: Member, p: MethodSymbol -> bool)
  {
    m.MethodMember? && p(m.symbol)
  }

  /** Member `k` is the first method among `members` that satisfies `p`. */
  ghost predicate IsFirstMatchingMethod(members: seq<Member>, k: int, p: MethodSymbol -> bool)
  {
    0 <= k < |members| && IsMatchingMethod(members[k], p)
    && forall j :: 0 <= j < k ==> !IsMatchingMethod(members[j], p)
  }

  /** `methods.FirstOrDefault(p)` where `methods` is `GetMembers().OfType<IMethodSymbol>()`. */
  function FindMethod(members: seq<Member>, p: MethodSymbol -> bool): (r: Option<MethodSymbol>)
    ensures r.None? <==> forall k :: 0 <= k < |members| ==> !IsMatchingMethod(members[k], p)
    ensures r.Some? ==> exists k :: IsFirstMatchingMethod(members, k, p) && members[k].symbol == r.value
  {
    FindMethodIsFirstMatch(members, p);
    FirstOrDefault(MethodsOf(members), p)
  }

  lemma {:induction false} FindMethodIsFirstMatch(members: seq<Member>, p: MethodSymbol -> bool)
    ensures var r := FirstOrDefault(MethodsOf(members), p);
      && (r.None? <==> forall k :: 0 <= k < |members| ==> !IsMatchingMethod(members[k], p))
      && (r.Some? ==> exists k :: IsFirstMatchingMethod(members, k, p) && members[k].symbol == r.value)
  {
    if members == [] {
    } else if IsMatchingMethod(members[0], p) {
      assert MethodsOf(members)[0] == members[0].symbol;
      assert IsFirstMatchingMethod(members, 0, p);
    } else {
      var rest := members[1..];
      FindMethodIsFirstMatch(rest, p);
      SkipNonMatchingMember(members, p);
      var r := FirstOrDefault(MethodsOf(rest), p);
      if r.Some? {
        var k :| IsFirstMatchingMethod(rest, k, p) && rest[k].symbol == r.value;
        ShiftFirstMatch(members, k, p);
      } else {
        assert forall k :: 1 <= k < |members| ==> members[k] == rest[k - 1];
      }
    }
  }

  /** A leading member that is not a matching method does not change `FirstOrDefault`'s answer. */
  lemma SkipNonMatchingMember(members: seq<Member>, p: MethodSymbol -> bool)
    requires members != [] && !IsMatchingMethod(members[0], p)
    ensures FirstOrDefault(MethodsOf(members), p) == FirstOrDefault(MethodsOf(members[1..]), p)
  {
    var rest := members[1..];
    var ms := MethodsOf(members);
    if members[0].MethodMember? {
      assert ms == [members[0].symbol] + MethodsOf(rest);
      assert ms[1..] == MethodsOf(rest);
      assert ms != [] && !p(ms[0]);
      assert FirstOrDefault(ms, p) == FirstOrDefault(ms[1..], p);
    } else {
      assert ms == [] + MethodsOf(rest);
      assert ms == MethodsOf(rest);
    }
  }

  lemma ShiftFirstMatch(members: seq<Member>, k: int, p: MethodSymbol -> bool)
    requires members != [] && !IsMatchingMethod(members[0], p)
    requires IsFirstMatchingMethod(members[1..], k, p)
    ensures IsFirstMatchingMethod(members, k + 1, p) && members[k + 1] == members[1..][k]
  {
    forall j | 1 <= j < k + 1
      ensures !IsMatchingMethod(members[j], p)
    {
      assert members[j] == members[1..][j - 1];
    }
  }

  /**
   * The `OnInit` candidate's filter: named `OnInit`, exactly one parameter,
   * of type `EventArgs`, declared `protected`, not static. The return type is
   * not looked at. No method passes both this filter and the `Page_Init` one.
   */
  predicate IsOnInitCandidate(m: MethodSymbol, eventArgs: TypeSymbol): (r: bool)
    ensures r <==> m.name == "OnInit" && m.parameterTypes == [eventArgs] && m.accessibility == Protected && !m.isStatic
    ensures r ==> !IsPageInitCandidate(m, eventArgs)
  {
    m.name == "OnInit"
    && |m.parameterTypes| == 1
    && m.parameterTypes[0] == eventArgs
    && m.accessibility == Protected
    && !m.isStatic
  }

  /**
   * The `Page_Init` candidate's filter: named `Page_Init`, parameters
   * `(object, EventArgs)`, returns `void`. Accessibility and staticness are
   * not looked at.
   */
  predicate IsPageInitCandidate(m: MethodSymbol, eventArgs: TypeSymbol): (r: bool)
    ensures r <==> && m.name == "Page_Init"
                   && m.returnType.specialType == SystemVoid
                   && |m.parameterTypes| == 2
                   && m.parameterTypes == [m.parameterTypes[0], eventArgs]
                   && m.parameterTypes[0].specialType == SystemObject
  {
    m.name == "Page_Init"
    && |m.parameterTypes| == 2
    && m.parameterTypes[0].specialType == SystemObject
    && m.parameterTypes[1] == eventArgs
    && m.returnType.specialType == SystemVoid
  }

  /** `OnInit`'s return type plays no part: changing it never changes the verdict. */
  lemma OnInitFilterIgnoresReturnType(m: MethodSymbol, eventArgs: TypeSymbol, returnType: TypeSymbol)
    ensures IsOnInitCandidate(m, eventArgs) <==> IsOnInitCandidate(m.(returnType := returnType), eventArgs)
  {
  }

  /** `Page_Init` may have any accessibility and may be static. */
  lemma PageInitFilterIgnoresModifiers(m: MethodSymbol, eventArgs: TypeSymbol, accessibility: Accessibility, isStatic: bool)
    ensures IsPageInitCandidate(m, eventArgs)
            <==> IsPageInitCandidate(m.(accessibility := accessibility, isStatic := isStatic), eventArgs)
  {
  }

  /** An instance reference to the containing type: `this` in C#, `Me` in Visual Basic. */
  predicate IsContainingTypeInstance(op: Operation)
  {
    op.InstanceReference? && op.referenceKind == ContainingTypeInstance
  }

  /** The receiver the rule accepts: `this`, or a virtual property read from `this`. */
  predicate IsAcceptedReceiver(receiver: Operation)
  {
    || IsContainingTypeInstance(receiver)
    || (&& receiver.PropertyReference?
        && receiver.property.isVirtual
        && receiver.instance.Some?
        && IsContainingTypeInstance(receiver.instance.value))
  }

  /** An accepted receiver is `this` itself or reads `this` directly below it. */
  lemma AcceptedReceiverReadsThis(receiver: Operation)
    requires IsAcceptedReceiver(receiver)
    ensures IsContainingTypeInstance(receiver)
            || exists t :: IsDescendant(t, receiver) && IsContainingTypeInstance(t)
  {
    if !IsContainingTypeInstance(receiver) {
      var t := receiver.instance.value;
      assert t in Children(receiver);
      assert IsDescendant(t, receiver);
    }
  }

  /**
   * `x.ViewStateUserKey = …` where the property has type `string` and `x`
   * is `this`, or a virtual property read from `this`. Such an assignment
   * always has a `this` reference below its target.
   */
  predicate IsViewStateUserKeyAssignment(op: Operation): (r: bool)
    ensures r ==> && op.SimpleAssignment?
                  && op.target.PropertyReference?
                  && op.target.property.name == "ViewStateUserKey"
                  && op.target.property.propertyType.specialType == SystemString
    ensures r ==> exists t :: IsDescendant(t, op.target) && IsContainingTypeInstance(t)
  {
    var r :=
      && op.SimpleAssignment?
      && op.target.PropertyReference?
      && op.target.property.name == "ViewStateUserKey"
      && op.target.property.propertyType.specialType == SystemString
      && op.target.instance.Some?
      && IsAcceptedReceiver(op.target.instance.value);
    if r then
      ThisLiesBelowKeyTarget(op.target);
      true
    else
      false
  }

  /** The target of an accepted key assignment has `this` somewhere below it. */
  lemma ThisLiesBelowKeyTarget(target: Operation)
    requires target.PropertyReference? && target.instance.Some? && IsAcceptedReceiver(target.instance.value)
    ensures exists t :: IsDescendant(t, target) && IsContainingTypeInstance(t)
  {
    var receiver := target.instance.value;
    assert receiver in Children(target);
    AcceptedReceiverReadsThis(receiver);
    if IsContainingTypeInstance(receiver) {
      assert IsDescendant(receiver, target);
    } else {
      var t :| IsDescendant(t, receiver) && IsContainingTypeInstance(t);
      assert IsDescendant(t, target);
    }
  }

  /** The method has a body with a `ViewStateUserKey` assignment anywhere below its operation block. */
  ghost predicate AssignsViewStateUserKey(m: MethodSymbol)
  {
    m.operationBlock.Some?
    && exists d :: IsDescendant(d, m.operationBlock.value) && IsViewStateUserKeyAssignment(d)
  }

  /** `SetViewStateUserKeyCorrectly(methodSymbol)`; a missing method, or one without a body, does not set the key. */
  function SetViewStateUserKeyCorrectly(method?: Option<MethodSymbol>): (r: bool)
    ensures method?.None? ==> !r
    ensures r <==> method?.Some? && AssignsViewStateUserKey(method?.value)
  {
    match method?
    case None => false
    case Some(m) =>
      match m.operationBlock
      case None => false
      case Some(block) =>
        DescendantsAreTheSubtreeForAll(block);
        exists d | d in Descendants(block) :: IsViewStateUserKeyAssignment(d)
  }

  /** The first method of `members` passing `p` exists and assigns the key. */
  ghost predicate FirstCandidateSetsKey(members: seq<Member>, p: MethodSymbol -> bool)
  {
    exists k :: IsFirstMatchingMethod(members, k, p) && AssignsViewStateUserKey(members[k].symbol)
  }

  /** The symbol action run on one named type, once `Page` and `EventArgs` are resolved. */
  function AnalyzeNamedType(types: WellKnownTypes, cls: NamedTypeSymbol): (r: Option<Diagnostic>)
    ensures r.Some? ==> r.value == Diagnostic(DiagnosticId, cls.name)
    ensures cls.baseType != Some(types.page) ==> r.None?
    ensures r.Some? <==>
      && cls.baseType == Some(types.page)
      && !FirstCandidateSetsKey(cls.members, m => IsOnInitCandidate(m, types.eventArgs))
      && !FirstCandidateSetsKey(cls.members, m => IsPageInitCandidate(m, types.eventArgs))
  {
    if cls.baseType == Some(types.page) then
      var onInit := FindMethod(cls.members, m => IsOnInitCandidate(m, types.eventArgs));
      var pageInit := FindMethod(cls.members, m => IsPageInitCandidate(m, types.eventArgs));
      if SetViewStateUserKeyCorrectly(onInit) || SetViewStateUserKeyCorrectly(pageInit) then None
      else Some(Diagnostic(DiagnosticId, cls.name))
    else
      None
  }

  /**
   * The whole rule for one named type. When `Page` or `EventArgs` cannot be
   * resolved in the compilation, no symbol action is registered.
   */
  function Analyze(page: Option<TypeSymbol>, eventArgs: Option<TypeSymbol>, cls: NamedTypeSymbol): (r: Option<Diagnostic>)
    ensures page.None? || eventArgs.None? ==> r.None?
    ensures page.Some? && eventArgs.Some? ==> r == AnalyzeNamedType(WellKnownTypes(page.value, eventArgs.value), cls)
  {
    if page.None? || eventArgs.None? then None
    else AnalyzeNamedType(WellKnownTypes(page.value, eventArgs.value), cls)
  }
}
