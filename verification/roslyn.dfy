/**
 * The slice of Roslyn's symbol and operation model that the ViewStateUserKey
 * rule inspects. Symbol resolution and `GetTopmostOperationBlock` belong to
 * the compiler: their results arrive here as values of these datatypes.
 */
module Roslyn {
  import opened Wrappers

  datatype SpecialType = NotSpecial | SystemObject | SystemVoid | SystemString

  datatype Accessibility =
    NotApplicable | Private | ProtectedAndInternal | Protected | Internal | ProtectedOrInternal | Public

  /** A type symbol; `id` stands for symbol identity (two symbols are `Equals` iff they are `==`). */
  datatype TypeSymbol = TypeSymbol(id: nat, name: string, specialType: SpecialType)

  datatype PropertySymbol = PropertySymbol(name: string, propertyType: TypeSymbol, isVirtual: bool)

  datatype InstanceReferenceKind = ContainingTypeInstance | ImplicitReceiver | PatternInput | InterpolatedStringHandler

  /** The operation tree: the kinds the rule tells apart, and every other kind with its children. */
  datatype Operation =
    | SimpleAssignment(target: Operation, value: Operation)
    | PropertyReference(property: PropertySymbol, instance: Option<Operation>, arguments: seq<Operation>)
    | InstanceReference(referenceKind: InstanceReferenceKind)
    | OtherOperation(children: seq<Operation>)

  /** A method; `operationBlock` is what `GetTopmostOperationBlock` gives for it (`None` for `null`). */
  datatype MethodSymbol = MethodSymbol(
    name: string,
    parameterTypes: seq<TypeSymbol>,
    returnType: TypeSymbol,
    accessibility: Accessibility,
    isStatic: bool,
    operationBlock: Option<Operation>)

  datatype Member = MethodMember(symbol: MethodSymbol) | OtherMember(name: string)

  datatype NamedTypeSymbol = NamedTypeSymbol(name: string, baseType: Option<TypeSymbol>, members: seq<Member>)

  /** `IOperation.ChildOperations`, in source order; each child is a proper part of the operation. */
  function Children(op: Operation): (cs: seq<Operation>)
    ensures forall c :: c in cs ==> c < op
  {
    match op
    case SimpleAssignment(target, value) => [target, value]
    case PropertyReference(_, instance, arguments) =>
      (if instance.Some? then [instance.value] else []) + arguments
    case InstanceReference(_) => []
    case OtherOperation(children) => children
  }

  /** The tree relation "`d` lies strictly below `op`". */
  ghost predicate IsDescendant(d: Operation, op: Operation)
    decreases op
  {
    exists c :: c in Children(op) && (d == c || IsDescendant(d, c))
  }

  /** `op.Descendants()`: every operation strictly below `op`, in pre-order. */
  function Descendants(op: Operation): (ds: seq<Operation>)
    ensures forall d :: d in ds ==> d < op
    decreases op, 1
  {
    ForestDescendants(Children(op), op)
  }

  /** Each operation of `cs` followed by its descendants, in order; `parent` bounds the recursion. */
  function ForestDescendants(cs: seq<Operation>, ghost parent: Operation): (ds: seq<Operation>)
    requires forall c :: c in cs ==> c < parent
    ensures forall d :: d in ds ==> d < parent
    decreases parent, 0, |cs|
  {
    if cs == [] then []
    else
      assert cs[0] in cs;
      assert forall c :: c in cs[1..] ==> c in cs;
      [cs[0]] + Descendants(cs[0]) + ForestDescendants(cs[1..], parent)
  }

  lemma {:induction false} ForestDescendantsMembership(d: Operation, cs: seq<Operation>, parent: Operation)
    requires forall c :: c in cs ==> c < parent
    ensures d in ForestDescendants(cs, parent) <==> exists k :: 0 <= k < |cs| && (d == cs[k] || d in Descendants(cs[k]))
    decreases |cs|
  {
    if cs != [] {
      assert forall c :: c in cs[1..] ==> c in cs;
      ForestDescendantsMembership(d, cs[1..], parent);
      if exists k :: 1 <= k < |cs| && (d == cs[k] || d in Descendants(cs[k])) {
        var k :| 1 <= k < |cs| && (d == cs[k] || d in Descendants(cs[k]));
        assert cs[1..][k - 1] == cs[k];
      }
    }
  }

  /** `Descendants` lists exactly the operations strictly below `op`. */
  lemma {:induction false} DescendantsAreTheSubtree(d: Operation, op: Operation)
    ensures d in Descendants(op) <==> IsDescendant(d, op)
    decreases op
  {
    var cs := Children(op);
    ForestDescendantsMembership(d, cs, op);
    forall k | 0 <= k < |cs|
      ensures d in Descendants(cs[k]) <==> IsDescendant(d, cs[k])
    {
      DescendantsAreTheSubtree(d, cs[k]);
    }
    if IsDescendant(d, op) {
      var c :| c in cs && (d == c || IsDescendant(d, c));
      var k :| 0 <= k < |cs| && cs[k] == c;
    }
  }

  lemma DescendantsAreTheSubtreeForAll(op: Operation)
    ensures forall d :: d in Descendants(op) <==> IsDescendant(d, op)
  {
    forall d {
      DescendantsAreTheSubtree(d, op);
    }
  }
}
