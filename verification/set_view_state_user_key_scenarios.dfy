/** Concrete pages run through the CA5368 rule. */
module SetViewStateUserKeyScenarios {
  import opened Wrappers
  import opened Roslyn
  import opened SetViewStateUserKey

  const EventArgsType := TypeSymbol(1, "EventArgs", NotSpecial)
  const PageType := TypeSymbol(2, "Page", NotSpecial)
  const StringType := TypeSymbol(3, "String", SystemString)
  const VoidType := TypeSymbol(4, "Void", SystemVoid)
  const ObjectType := TypeSymbol(5, "Object", SystemObject)
  const MyPageType := TypeSymbol(6, "MyPage", NotSpecial)

  /** `receiver.ViewStateUserKey = Session.SessionID;` as an expression statement. */
  function SetKeyStatement(receiver: Operation): Operation
  {
    OtherOperation([
      SimpleAssignment(
        PropertyReference(PropertySymbol("ViewStateUserKey", StringType, false), Some(receiver), []),
        PropertyReference(PropertySymbol("SessionID", StringType, false), None, []))])
  }

  /** A body made of that one statement assigns the key when the receiver is an accepted one. */
  lemma SetKeyStatementAssignsKey(receiver: Operation)
    requires IsContainingTypeInstance(receiver)
          || (receiver.PropertyReference? && receiver.property.isVirtual
              && receiver.instance.Some? && IsContainingTypeInstance(receiver.instance.value))
    ensures exists d :: IsDescendant(d, OtherOperation([SetKeyStatement(receiver)])) && IsViewStateUserKeyAssignment(d)
  {
    var statement := SetKeyStatement(receiver);
    var assignment := statement.children[0];
    assert Children(statement) == [assignment];
    assert assignment in Children(statement);
    assert IsDescendant(assignment, statement);
    assert Children(OtherOperation([statement])) == [statement];
    assert statement in Children(OtherOperation([statement]));
    assert IsDescendant(assignment, OtherOperation([statement]));
  }

  const ThisReference := InstanceReference(ContainingTypeInstance)

  function OnInit(accessibility: Accessibility, body: seq<Operation>): MethodSymbol
  {
    MethodSymbol("OnInit", [EventArgsType], VoidType, accessibility, false, Some(OtherOperation(body)))
  }

  function PageInit(body: seq<Operation>): MethodSymbol
  {
    MethodSymbol("Page_Init", [ObjectType, EventArgsType], VoidType, Private, false, Some(OtherOperation(body)))
  }

  /** `protected override void OnInit(EventArgs e) { ViewStateUserKey = Session.SessionID; }` satisfies the rule. */
  lemma ProtectedOnInitSettingKeyIsAccepted()
    ensures Analyze(Some(PageType), Some(EventArgsType),
                    NamedTypeSymbol("Secure", Some(PageType), [MethodMember(OnInit(Protected, [SetKeyStatement(ThisReference)]))]))
            == None
  {
    SetKeyStatementAssignsKey(ThisReference);
  }

  /** Setting the key through a virtual property of `this`, in `Page_Init`, satisfies the rule too. */
  lemma PageInitSettingKeyThroughVirtualPropertyIsAccepted()
    ensures var receiver := PropertyReference(PropertySymbol("Page", PageType, true), Some(ThisReference), []);
            Analyze(Some(PageType), Some(EventArgsType),
                    NamedTypeSymbol("Secure", Some(PageType), [MethodMember(PageInit([SetKeyStatement(receiver)]))]))
            == None
  {
    var receiver := PropertyReference(PropertySymbol("Page", PageType, true), Some(ThisReference), []);
    SetKeyStatementAssignsKey(receiver);
  }

  /** A public `OnInit` is not a candidate, so the key it sets does not count. */
  lemma PublicOnInitIsReported()
    ensures Analyze(Some(PageType), Some(EventArgsType),
                    NamedTypeSymbol("Insecure", Some(PageType), [MethodMember(OnInit(Public, [SetKeyStatement(ThisReference)]))]))
            == Some(Diagnostic("CA5368", "Insecure"))
  {
  }

  /**
   * Only the first `OnInit` candidate is examined: a later one that sets the
   * key is ignored. The first member stands for a generic
   * `protected void OnInit<T>(EventArgs e)` declared before the override
   * (type parameters are not part of the symbol model, so it has the same
   * shape); it passes the filter and has an empty body.
   */
  lemma OnlyFirstCandidateIsExamined()
    ensures Analyze(Some(PageType), Some(EventArgsType),
                    NamedTypeSymbol("Insecure", Some(PageType),
                                    [MethodMember(OnInit(Protected, [])),
                                     MethodMember(OnInit(Protected, [SetKeyStatement(ThisReference)]))]))
            == Some(Diagnostic("CA5368", "Insecure"))
  {
    var members := [MethodMember(OnInit(Protected, [])), MethodMember(OnInit(Protected, [SetKeyStatement(ThisReference)]))];
    var isOnInit := m => IsOnInitCandidate(m, EventArgsType);
    assert IsMatchingMethod(members[0], isOnInit);
    var found := FindMethod(members, isOnInit);
    var k :| IsFirstMatchingMethod(members, k, isOnInit) && members[k].symbol == found.value;
    assert k == 0;
    assert Children(OtherOperation([])) == [];
    assert Descendants(OtherOperation([])) == [];
    assert !SetViewStateUserKeyCorrectly(found);
  }

  /** A class deriving from a subclass of `Page` is not examined, even without any key. */
  lemma IndirectSubclassIsNotExamined()
    ensures Analyze(Some(PageType), Some(EventArgsType), NamedTypeSymbol("Derived", Some(MyPageType), [])) == None
  {
  }

  /** When `System.Web.UI.Page` is not in the compilation, nothing is reported. */
  lemma UnresolvedPageReportsNothing(cls: NamedTypeSymbol, eventArgs: Option<TypeSymbol>)
    ensures Analyze(None, eventArgs, cls) == None
  {
  }
}
