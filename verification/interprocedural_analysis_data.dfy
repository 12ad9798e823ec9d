/**
 * `InterproceduralAnalysisData`: the caller context that keys a
 * context-sensitive analysis of a callee. It bundles eight data components
 * and four callbacks; hashing and equality look only at the eight data
 * components, and only through their hash codes.
 *
 * Each component's type is a type parameter (the C# class is generic in the
 * analysis data, context and value types, and the maps, stack and set are
 * library collections); their hash functions are gathered in `Hashers`.
 */
module InterproceduralAnalysisDataModel {
  import opened Wrappers
  import opened HashCodes

  /**
   * The hash function of each data component: `GetHashCode` of the analysis
   * data, of an `AnalysisEntity` and of a `PointsToAbstractValue`, and
   * `HashUtilities.Combine` of each of the five collections.
   */
  datatype Hashers<-Data, -Entity, -PointsTo, -Args, -Captured, -Shared, -Stack, -Contexts> = Hashers(
    data: Data -> int32,
    entity: Entity -> int32,
    pointsTo: PointsTo -> int32,
    arguments: Args -> int32,
    captured: Captured -> int32,
    addressShared: Shared -> int32,
    callStack: Stack -> int32,
    methods: Contexts -> int32)

  /** A nullable `(AnalysisEntity? Instance, PointsToAbstractValue PointsToValue)` pair. */
  type InstanceAndPointsTo<Entity, PointsTo> = Option<(Option<Entity>, PointsTo)>

  /** The implicit conversion of a `(AnalysisEntity, PointsToAbstractValue)?` to the nullable-entity form. */
  function WidenInstance<Entity, PointsTo>(t: Option<(Entity, PointsTo)>): InstanceAndPointsTo<Entity, PointsTo>
  {
    match t
    case None => None
    case Some((e, p)) => Some((Some(e), p))
  }

  /** The parts `AddHashCodeParts` adds: a single `0` when absent, else the entity hash then the points-to hash. */
  function InstanceHashCodeParts<Entity, PointsTo>(
    t: InstanceAndPointsTo<Entity, PointsTo>, entityHash: Entity -> int32, pointsToHash: PointsTo -> int32): seq<int32>
  {
    match t
    case None => [0]
    case Some((e, p)) => [HashOrDefault(e, entityHash), pointsToHash(p)]
  }

  /** What equality looks at in a pair: nothing when absent, else its two hashes. */
  function InstanceHashView<Entity, PointsTo>(
    t: InstanceAndPointsTo<Entity, PointsTo>, entityHash: Entity -> int32, pointsToHash: PointsTo -> int32): Option<(int32, int32)>
  {
    match t
    case None => None
    case Some((e, p)) => Some((HashOrDefault(e, entityHash), pointsToHash(p)))
  }

  /** `AddHashCodeParts(instanceAndPointsToValue, ref hashCode)`. */
  method AddHashCodeParts<Entity, PointsTo>(
    t: InstanceAndPointsTo<Entity, PointsTo>, hashCode: RoslynHashCode,
    entityHash: Entity -> int32, pointsToHash: PointsTo -> int32)
    modifies hashCode
    ensures hashCode.parts == old(hashCode.parts) + InstanceHashCodeParts(t, entityHash, pointsToHash)
  {
    if t.Some? {
      hashCode.Add(HashOrDefault(t.value.0, entityHash));
      hashCode.Add(pointsToHash(t.value.1));
    } else {
      hashCode.Add(0);
    }
  }

  /**
   * `EqualsByHashCodeParts(left, right)`: absent equals absent, absent never
   * equals present, two present pairs are equal when both hashes agree.
   * It holds exactly when the two pairs add the same parts to the accumulator.
   */
  function EqualsByHashCodeParts<Entity, PointsTo>(
    left: InstanceAndPointsTo<Entity, PointsTo>, right: InstanceAndPointsTo<Entity, PointsTo>,
    entityHash: Entity -> int32, pointsToHash: PointsTo -> int32): (eq: bool)
    ensures left.None? && right.None? ==> eq
    ensures left.None? != right.None? ==> !eq
    ensures eq <==> InstanceHashView(left, entityHash, pointsToHash) == InstanceHashView(right, entityHash, pointsToHash)
    ensures eq <==> InstanceHashCodeParts(left, entityHash, pointsToHash) == InstanceHashCodeParts(right, entityHash, pointsToHash)
  {
    if left.None? then
      right.None?
    else if right.None? then
      false
    else
      HashOrDefault(left.value.0, entityHash) == HashOrDefault(right.value.0, entityHash)
      && pointsToHash(left.value.1) == pointsToHash(right.value.1)
  }

  /** Everything record equality compares: one hash, or hash pair, per data component. */
  datatype HashView = HashView(
    initialData: int32,
    invocationInstance: Option<(int32, int32)>,
    thisOrMeInstance: Option<(int32, int32)>,
    arguments: int32,
    captured: int32,
    addressShared: int32,
    callStack: int32,
    methods: int32)

  /**
   * The record. Every field is immutable and holds its constructor argument.
   * The last four are the callbacks, which hashing and equality never read.
   */
  datatype InterproceduralAnalysisData<Data, Entity, PointsTo, Args, Captured, Shared, Stack, Contexts,
                                       ValueGetter, CfgGetter, FlowCaptureGetter, CallStackGetter> =
    InterproceduralAnalysisData(
      InitialAnalysisData: Option<Data>,
      InvocationInstance: InstanceAndPointsTo<Entity, PointsTo>,
      ThisOrMeInstanceForCaller: Option<(Entity, PointsTo)>,
      ArgumentValuesMap: Args,
      CapturedVariablesMap: Captured,
      AddressSharedEntities: Shared,
      CallStack: Stack,
      MethodsBeingAnalyzed: Contexts,
      GetCachedAbstractValueFromCaller: ValueGetter,
      GetInterproceduralControlFlowGraph: CfgGetter,
      GetAnalysisEntityForFlowCapture: FlowCaptureGetter,
      GetInterproceduralCallStackForOwningSymbol: CallStackGetter)
  {
    /**
     * The parts `ComputeHashCodeParts` feeds to the accumulator, in the order
     * initial data, invocation instance, this/me, arguments, captured
     * variables, address-shared entities, call stack, methods being analyzed.
     */
    function HashCodeParts(h: Hashers<Data, Entity, PointsTo, Args, Captured, Shared, Stack, Contexts>): seq<int32>
    {
      [HashOrDefault(InitialAnalysisData, h.data)]
      + InstanceHashCodeParts(InvocationInstance, h.entity, h.pointsTo)
      + InstanceHashCodeParts(WidenInstance(ThisOrMeInstanceForCaller), h.entity, h.pointsTo)
      + [h.arguments(ArgumentValuesMap), h.captured(CapturedVariablesMap), h.addressShared(AddressSharedEntities),
         h.callStack(CallStack), h.methods(MethodsBeingAnalyzed)]
    }

    function View(h: Hashers<Data, Entity, PointsTo, Args, Captured, Shared, Stack, Contexts>): HashView
    {
      HashView(
        HashOrDefault(InitialAnalysisData, h.data),
        InstanceHashView(InvocationInstance, h.entity, h.pointsTo),
        InstanceHashView(WidenInstance(ThisOrMeInstanceForCaller), h.entity, h.pointsTo),
        h.arguments(ArgumentValuesMap),
        h.captured(CapturedVariablesMap),
        h.addressShared(AddressSharedEntities),
        h.callStack(CallStack),
        h.methods(MethodsBeingAnalyzed))
    }

    /** `ComputeHashCodeParts(ref hashCode)`: one `Add` per component, the pairs through `AddHashCodeParts`. */
    method ComputeHashCodeParts(hashCode: RoslynHashCode, h: Hashers<Data, Entity, PointsTo, Args, Captured, Shared, Stack, Contexts>)
      modifies hashCode
      ensures hashCode.parts == old(hashCode.parts) + HashCodeParts(h)
    {
      hashCode.Add(HashOrDefault(InitialAnalysisData, h.data));
      AddHashCodeParts(InvocationInstance, hashCode, h.entity, h.pointsTo);
      AddHashCodeParts(WidenInstance(ThisOrMeInstanceForCaller), hashCode, h.entity, h.pointsTo);
      hashCode.Add(h.arguments(ArgumentValuesMap));
      hashCode.Add(h.captured(CapturedVariablesMap));
      hashCode.Add(h.addressShared(AddressSharedEntities));
      hashCode.Add(h.callStack(CallStack));
      hashCode.Add(h.methods(MethodsBeingAnalyzed));
    }

    /**
     * `ComputeEqualsByHashCodeParts(other)`: the eight data components agree
     * hash by hash (the pairs by `EqualsByHashCodeParts`); the callbacks are
     * not compared. Equal records feed the accumulator the same parts.
     */
    function ComputeEqualsByHashCodeParts(
      other: InterproceduralAnalysisData<Data, Entity, PointsTo, Args, Captured, Shared, Stack, Contexts,
                                         ValueGetter, CfgGetter, FlowCaptureGetter, CallStackGetter>,
      h: Hashers<Data, Entity, PointsTo, Args, Captured, Shared, Stack, Contexts>): (eq: bool)
      ensures eq <==> View(h) == other.View(h)
      ensures eq ==> HashCodeParts(h) == other.HashCodeParts(h)
    {
      HashOrDefault(InitialAnalysisData, h.data) == HashOrDefault(other.InitialAnalysisData, h.data)
      && EqualsByHashCodeParts(InvocationInstance, other.InvocationInstance, h.entity, h.pointsTo)
      && EqualsByHashCodeParts(WidenInstance(ThisOrMeInstanceForCaller), WidenInstance(other.ThisOrMeInstanceForCaller), h.entity, h.pointsTo)
      && h.arguments(ArgumentValuesMap) == h.arguments(other.ArgumentValuesMap)
      && h.captured(CapturedVariablesMap) == h.captured(other.CapturedVariablesMap)
      && h.addressShared(AddressSharedEntities) == h.addressShared(other.AddressSharedEntities)
      && h.callStack(CallStack) == h.callStack(other.CallStack)
      && h.methods(MethodsBeingAnalyzed) == h.methods(other.MethodsBeingAnalyzed)
    }
    lemma EqualsIsReflexive(h: Hashers<Data, Entity, PointsTo, Args, Captured, Shared, Stack, Contexts>)
      ensures ComputeEqualsByHashCodeParts(this, h)
    {
    }

    lemma EqualsIsSymmetric(
      other: InterproceduralAnalysisData<Data, Entity, PointsTo, Args, Captured, Shared, Stack, Contexts,
                                         ValueGetter, CfgGetter, FlowCaptureGetter, CallStackGetter>,
      h: Hashers<Data, Entity, PointsTo, Args, Captured, Shared, Stack, Contexts>)
      ensures ComputeEqualsByHashCodeParts(other, h) <==> other.ComputeEqualsByHashCodeParts(this, h)
    {
    }

    lemma EqualsIsTransitive(
      y: InterproceduralAnalysisData<Data, Entity, PointsTo, Args, Captured, Shared, Stack, Contexts,
                                         ValueGetter, CfgGetter, FlowCaptureGetter, CallStackGetter>,
      z: InterproceduralAnalysisData<Data, Entity, PointsTo, Args, Captured, Shared, Stack, Contexts,
                                         ValueGetter, CfgGetter, FlowCaptureGetter, CallStackGetter>,
      h: Hashers<Data, Entity, PointsTo, Args, Captured, Shared, Stack, Contexts>)
      requires ComputeEqualsByHashCodeParts(y, h) && y.ComputeEqualsByHashCodeParts(z, h)
      ensures ComputeEqualsByHashCodeParts(z, h)
    {
    }

    /** Equal records hash alike, whatever function mixes the parts into the final hash code. */
    lemma EqualRecordsHashAlike(
      other: InterproceduralAnalysisData<Data, Entity, PointsTo, Args, Captured, Shared, Stack, Contexts,
                                         ValueGetter, CfgGetter, FlowCaptureGetter, CallStackGetter>,
      h: Hashers<Data, Entity, PointsTo, Args, Captured, Shared, Stack, Contexts>,
      mix: seq<int32> -> int32)
      requires ComputeEqualsByHashCodeParts(other, h)
      ensures HashCodeParts(h) == other.HashCodeParts(h)
      ensures mix(HashCodeParts(h)) == mix(other.HashCodeParts(h))
    {
    }

    /** Replacing the four callbacks changes neither equality nor the hash parts. */
    lemma CallbacksAreIgnored(
      h: Hashers<Data, Entity, PointsTo, Args, Captured, Shared, Stack, Contexts>,
      valueGetter: ValueGetter, cfgGetter: CfgGetter,
      flowCaptureGetter: FlowCaptureGetter, callStackGetter: CallStackGetter)
      ensures var other := this.(GetCachedAbstractValueFromCaller := valueGetter,
                                 GetInterproceduralControlFlowGraph := cfgGetter,
                                 GetAnalysisEntityForFlowCapture := flowCaptureGetter,
                                 GetInterproceduralCallStackForOwningSymbol := callStackGetter);
              ComputeEqualsByHashCodeParts(other, h) && other.ComputeEqualsByHashCodeParts(this, h)
              && HashCodeParts(h) == other.HashCodeParts(h)
    {
    }

    /**
     * The converse of `EqualRecordsHashAlike` fails: an absent pair adds one
     * part and a present one two, so a record with no invocation instance and
     * a this/me pair hashing to (t, 0) feeds the accumulator the same parts as
     * one whose invocation pair hashes to (0, t) and has no this/me pair, yet
     * the two are not equal.
     */
    lemma AbsentAndPresentPairsCanShareHashParts(
      other: InterproceduralAnalysisData<Data, Entity, PointsTo, Args, Captured, Shared, Stack, Contexts,
                                         ValueGetter, CfgGetter, FlowCaptureGetter, CallStackGetter>,
      h: Hashers<Data, Entity, PointsTo, Args, Captured, Shared, Stack, Contexts>)
      requires InvocationInstance.None? && ThisOrMeInstanceForCaller.Some?
      requires other.InvocationInstance.Some? && other.ThisOrMeInstanceForCaller.None?
      requires HashOrDefault(other.InvocationInstance.value.0, h.entity) == 0
      requires h.pointsTo(other.InvocationInstance.value.1) == h.entity(ThisOrMeInstanceForCaller.value.0)
      requires h.pointsTo(ThisOrMeInstanceForCaller.value.1) == 0
      requires HashOrDefault(InitialAnalysisData, h.data) == HashOrDefault(other.InitialAnalysisData, h.data)
      requires h.arguments(ArgumentValuesMap) == h.arguments(other.ArgumentValuesMap)
      requires h.captured(CapturedVariablesMap) == h.captured(other.CapturedVariablesMap)
      requires h.addressShared(AddressSharedEntities) == h.addressShared(other.AddressSharedEntities)
      requires h.callStack(CallStack) == h.callStack(other.CallStack)
      requires h.methods(MethodsBeingAnalyzed) == h.methods(other.MethodsBeingAnalyzed)
      ensures HashCodeParts(h) == other.HashCodeParts(h)
      ensures !ComputeEqualsByHashCodeParts(other, h)
    {
    }

    /**
     * A present invocation pair with a `null` entity is equal to one whose
     * entity hashes to `0`, when their points-to values hash alike.
     */
    lemma NullEntityEqualsZeroHashEntity(
      other: InterproceduralAnalysisData<Data, Entity, PointsTo, Args, Captured, Shared, Stack, Contexts,
                                         ValueGetter, CfgGetter, FlowCaptureGetter, CallStackGetter>,
      h: Hashers<Data, Entity, PointsTo, Args, Captured, Shared, Stack, Contexts>)
      requires InvocationInstance.Some? && InvocationInstance.value.0.None?
      requires other.InvocationInstance.Some? && other.InvocationInstance.value.0.Some?
      requires h.entity(other.InvocationInstance.value.0.value) == 0
      requires h.pointsTo(InvocationInstance.value.1) == h.pointsTo(other.InvocationInstance.value.1)
      ensures EqualsByHashCodeParts(InvocationInstance, other.InvocationInstance, h.entity, h.pointsTo)
    {
    }
  }
}
