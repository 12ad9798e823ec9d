# Dataflow keys and the ViewStateUserKey rule, modelled in Dafny

This project models three small pieces of a .NET static-analysis engine (the
Roslyn analyzers' dataflow framework and one of its security rules):

1. **`AbstractIndex.ConstantValueIndex`** (`abstract_index.dfy`): the location
   key for "the element at constant index N". It feeds a hash accumulator with
   the index hash and then the hash of the variant name. Two keys compare equal
   when their index hashes agree. The model proves that equality and hashing agree,
   so equal keys are interchangeable in a map. It also proves that equality is an
   equivalence, and that with an injective index hash (such as .NET's
   `int.GetHashCode`) it is exactly equality of the indices.
2. **`InterproceduralAnalysisData`** (`interprocedural_analysis_data.dfy`): the
   caller context that keys a context-sensitive analysis of a callee. It has
   eight data components and four callbacks. Hashing and equality work on the
   per-component hashes. A nullable `(entity, points-to)` pair contributes a
   single `0` when absent and two hashes when present. The model proves:
   - equality is "same hash view", one hash or hash pair per data component;
   - equality is an equivalence relation;
   - equal records feed the accumulator identical parts;
   - the callbacks never matter.
   The converse of the consistency fails: two unequal records can feed the same
   parts (`AbsentAndPresentPairsCanShareHashParts`). That is a hash collision
   and breaks no contract: a hash code must agree on equal records, but it
   need not separate unequal ones.
3. **The CA5368 rule `SetViewStateUserKey`** (`roslyn.dfy`,
   `set_view_state_user_key.dfy`, `set_view_state_user_key_scenarios.dfy`):
   a class whose direct base type is `System.Web.UI.Page` gets one diagnostic
   carrying its name, unless one of two candidate methods assigns
   `ViewStateUserKey` on `this` or on a virtual property of `this`. The first
   candidate is the first `OnInit(EventArgs)` that is protected and not static.
   The second is the first `void Page_Init(object, EventArgs)`. Symbols and
   operation trees are datatypes, and `Descendants()` is a recursive walk over
   the tree. The model proves that the walk lists exactly the operations below
   the root. The rule's answer is characterised by independent definitions:
   the first matching member, and "some operation below the method body
   assigns the key".

The hash accumulator `RoslynHashCode`, which the source passes by `ref` and
fills with successive `Add` calls, is a class whose `parts` sequence the
`ComputeHashCodeParts`/`AddHashCodeParts` methods extend. Each such method is
proved to append exactly the parts given by a pure `HashCodeParts` function,
and the lemmas are stated about those functions. The functions that mix the
parts into one `int` are library code. The model does not fix them: hash
functions are parameters (the `Hashers` records), so every property holds for
all of them. Hash codes are 32-bit (`int32`).

`Wrappers` holds the `Option` type; `HashCodes` holds `int32`, the accumulator
and `GetHashCodeOrDefault` (`HashOrDefault`: `0` for `null`).

## Model

| member | source | states |
|---|---|---|
| `HashCodes.RoslynHashCode.Add` | src/Utilities/FlowAnalysis/FlowAnalysis/Framework/DataFlow/AbstractIndex.ConstantValueIndex.cs:15-16 | adding a value appends exactly that one part to the accumulator |
| `HashCodes.HashOrDefault` | src/Utilities/FlowAnalysis/FlowAnalysis/Framework/DataFlow/InterproceduralAnalysisData.cs:54 | `GetHashCodeOrDefault`: `0` for `null`, otherwise the value's own hash |
| `AbstractIndex.ConstantValueIndex.ComputeHashCodeParts` | src/Utilities/FlowAnalysis/FlowAnalysis/Framework/DataFlow/AbstractIndex.ConstantValueIndex.cs:13-17 | the accumulator gains exactly the key's hash parts, after whatever it held |
| `AbstractIndex.ConstantValueIndex.ComputeEqualsByHashCodeParts` | src/Utilities/FlowAnalysis/FlowAnalysis/Framework/DataFlow/AbstractIndex.ConstantValueIndex.cs:19-23 | two keys are equal iff they feed the accumulator identical parts (both directions) |
| `AbstractIndex.HashCodePartsDependOnIndexOnly` | src/Utilities/FlowAnalysis/FlowAnalysis/Framework/DataFlow/AbstractIndex.ConstantValueIndex.cs:13-17 | the parts are exactly the index hash then the hash of "ConstantValueIndex"; keys with the same index have the same parts |
| `AbstractIndex.SameIndexCompareEqual` | src/Utilities/FlowAnalysis/FlowAnalysis/Framework/DataFlow/AbstractIndex.ConstantValueIndex.cs:9-23 | two keys built from the same index compare equal, for any hash functions |
| `AbstractIndex.EqualsIsReflexive` | src/Utilities/FlowAnalysis/FlowAnalysis/Framework/DataFlow/AbstractIndex.ConstantValueIndex.cs:21-22 | every key equals itself |
| `AbstractIndex.EqualsIsSymmetric` | src/Utilities/FlowAnalysis/FlowAnalysis/Framework/DataFlow/AbstractIndex.ConstantValueIndex.cs:21-22 | key equality is symmetric |
| `AbstractIndex.EqualsIsTransitive` | src/Utilities/FlowAnalysis/FlowAnalysis/Framework/DataFlow/AbstractIndex.ConstantValueIndex.cs:21-22 | key equality is transitive |
| `AbstractIndex.EqualKeysHashAlike` | src/Utilities/FlowAnalysis/FlowAnalysis/Framework/DataFlow/AbstractIndex.ConstantValueIndex.cs:13-23 | equal keys have identical parts, hence the same hash code under any mixing function |
| `AbstractIndex.InjectiveHashMakesEqualityExact` | src/Utilities/FlowAnalysis/FlowAnalysis/Framework/DataFlow/AbstractIndex.ConstantValueIndex.cs:22 | with an injective index hash, key equality coincides with equality of `Index` |
| `AbstractIndex.Int32HashMakesEqualityExact` | src/Utilities/FlowAnalysis/FlowAnalysis/Framework/DataFlow/AbstractIndex.ConstantValueIndex.cs:22 | with .NET's identity `int.GetHashCode`, two keys are equal iff they are the same key |
| `InterproceduralAnalysisDataModel.AddHashCodeParts` | src/Utilities/FlowAnalysis/FlowAnalysis/Framework/DataFlow/InterproceduralAnalysisData.cs:77-90 | the accumulator gains exactly the pair's parts: `0` when absent, else entity hash (0 for a null entity) then points-to hash |
| `InterproceduralAnalysisDataModel.EqualsByHashCodeParts` | src/Utilities/FlowAnalysis/FlowAnalysis/Framework/DataFlow/InterproceduralAnalysisData.cs:92-103 | absent equals absent; absent never equals present; otherwise equal iff both hashes match; and equal iff the two pairs add identical parts |
| `InterproceduralAnalysisDataModel.InterproceduralAnalysisData.ComputeHashCodeParts` | src/Utilities/FlowAnalysis/FlowAnalysis/Framework/DataFlow/InterproceduralAnalysisData.cs:52-62 | the accumulator gains exactly the record's parts: initial data, invocation instance, this/me, arguments, captured variables, address-shared, call stack, methods being analyzed |
| `InterproceduralAnalysisDataModel.InterproceduralAnalysisData.ComputeEqualsByHashCodeParts` | src/Utilities/FlowAnalysis/FlowAnalysis/Framework/DataFlow/InterproceduralAnalysisData.cs:64-75 | records are equal iff all eight data components agree hash by hash (the pairs by the pair rule); equal records have identical hash parts |
| `InterproceduralAnalysisDataModel.InterproceduralAnalysisData.EqualsIsReflexive` | src/Utilities/FlowAnalysis/FlowAnalysis/Framework/DataFlow/InterproceduralAnalysisData.cs:64-103 | every record equals itself |
| `InterproceduralAnalysisDataModel.InterproceduralAnalysisData.EqualsIsSymmetric` | src/Utilities/FlowAnalysis/FlowAnalysis/Framework/DataFlow/InterproceduralAnalysisData.cs:64-103 | record equality is symmetric |
| `InterproceduralAnalysisDataModel.InterproceduralAnalysisData.EqualsIsTransitive` | src/Utilities/FlowAnalysis/FlowAnalysis/Framework/DataFlow/InterproceduralAnalysisData.cs:64-103 | record equality is transitive |
| `InterproceduralAnalysisDataModel.InterproceduralAnalysisData.EqualRecordsHashAlike` | src/Utilities/FlowAnalysis/FlowAnalysis/Framework/DataFlow/InterproceduralAnalysisData.cs:52-75 | equal records have identical parts, hence the same hash code under any mixing function |
| `InterproceduralAnalysisDataModel.InterproceduralAnalysisData.CallbacksAreIgnored` | src/Utilities/FlowAnalysis/FlowAnalysis/Framework/DataFlow/InterproceduralAnalysisData.cs:47-75 | records differing only in the four callbacks compare equal both ways and hash the same |
| `InterproceduralAnalysisDataModel.InterproceduralAnalysisData.AbsentAndPresentPairsCanShareHashParts` | src/Utilities/FlowAnalysis/FlowAnalysis/Framework/DataFlow/InterproceduralAnalysisData.cs:52-90 | identical hash parts do not imply equality: an absent invocation pair plus a this/me pair hashing to (t, 0) collides with a present invocation pair hashing to (0, t) and no this/me pair |
| `InterproceduralAnalysisDataModel.InterproceduralAnalysisData.NullEntityEqualsZeroHashEntity` | src/Utilities/FlowAnalysis/FlowAnalysis/Framework/DataFlow/InterproceduralAnalysisData.cs:101-102 | through `GetHashCodeOrDefault`, an invocation pair with a `null` entity equals one whose entity hashes to `0` when the points-to hashes agree |
| `Roslyn.Children` | src/Microsoft.NetCore.Analyzers/Core/Security/SetViewStateUserKey.cs:96-97 | every child operation is a proper part of its parent, so the walk terminates |
| `Roslyn.Descendants` | src/Microsoft.NetCore.Analyzers/Core/Security/SetViewStateUserKey.cs:96-97 | every listed descendant lies strictly inside the root |
| `Roslyn.DescendantsAreTheSubtree` | src/Microsoft.NetCore.Analyzers/Core/Security/SetViewStateUserKey.cs:96-98 | an operation is listed by `Descendants()` iff it lies strictly below the root in the tree (both directions) |
| `SetViewStateUserKey.MethodsOf` | src/Microsoft.NetCore.Analyzers/Core/Security/SetViewStateUserKey.cs:70 | `OfType<IMethodSymbol>()` keeps exactly the members that are methods |
| `SetViewStateUserKey.MethodsOfMethodMember` | src/Microsoft.NetCore.Analyzers/Core/Security/SetViewStateUserKey.cs:70 | `OfType` keeps a single method member |
| `SetViewStateUserKey.MethodsOfOtherMember` | src/Microsoft.NetCore.Analyzers/Core/Security/SetViewStateUserKey.cs:70 | `OfType` drops a single non-method member |
| `SetViewStateUserKey.MethodsOfAppend` | src/Microsoft.NetCore.Analyzers/Core/Security/SetViewStateUserKey.cs:70 | `OfType` distributes over concatenation, so with the two lemmas above it keeps the methods in member order |
| `SetViewStateUserKey.FirstOrDefault` | src/Microsoft.NetCore.Analyzers/Core/Security/SetViewStateUserKey.cs:71-80 | `None` iff no element satisfies the filter; otherwise the result is an element satisfying it, and no earlier element does |
| `SetViewStateUserKey.FindMethod` | src/Microsoft.NetCore.Analyzers/Core/Security/SetViewStateUserKey.cs:70-80 | the candidate is the method of the first member that is a method passing the filter; `None` iff there is none |
| `SetViewStateUserKey.IsOnInitCandidate` | src/Microsoft.NetCore.Analyzers/Core/Security/SetViewStateUserKey.cs:71-75 | a method is the `OnInit` candidate iff it is named `OnInit`, its parameter list is exactly `[EventArgs]`, it is protected and it is not static; no method is both an `OnInit` and a `Page_Init` candidate |
| `SetViewStateUserKey.IsPageInitCandidate` | src/Microsoft.NetCore.Analyzers/Core/Security/SetViewStateUserKey.cs:76-80 | a method is the `Page_Init` candidate iff it is named `Page_Init`, returns `void`, and its parameter list is exactly `[object, EventArgs]` |
| `SetViewStateUserKey.OnInitFilterIgnoresReturnType` | src/Microsoft.NetCore.Analyzers/Core/Security/SetViewStateUserKey.cs:71-75 | the `OnInit` filter does not depend on the return type |
| `SetViewStateUserKey.PageInitFilterIgnoresModifiers` | src/Microsoft.NetCore.Analyzers/Core/Security/SetViewStateUserKey.cs:76-80 | the `Page_Init` filter does not depend on accessibility or on being static |
| `SetViewStateUserKey.IsViewStateUserKeyAssignment` | src/Microsoft.NetCore.Analyzers/Core/Security/SetViewStateUserKey.cs:98-107 | an accepted operation is a simple assignment to the `string` property `ViewStateUserKey`, and `this` lies below its target (directly, or under a virtual property) |
| `SetViewStateUserKey.ThisLiesBelowKeyTarget` | src/Microsoft.NetCore.Analyzers/Core/Security/SetViewStateUserKey.cs:102-107 | the target of an accepted key assignment always has a `this` reference below it |
| `SetViewStateUserKey.SetViewStateUserKeyCorrectly` | src/Microsoft.NetCore.Analyzers/Core/Security/SetViewStateUserKey.cs:94-109 | a missing method gives false; otherwise true iff the method has a body and some operation below it is a simple assignment to the `string` property `ViewStateUserKey` of `this` or of a virtual property of `this` |
| `SetViewStateUserKey.AnalyzeNamedType` | src/Microsoft.NetCore.Analyzers/Core/Security/SetViewStateUserKey.cs:63-92 | classes whose direct base is not `Page` get nothing; a `Page` subclass gets exactly one diagnostic `CA5368` with its name iff neither the first `OnInit` candidate nor the first `Page_Init` candidate assigns the key |
| `SetViewStateUserKey.Analyze` | src/Microsoft.NetCore.Analyzers/Core/Security/SetViewStateUserKey.cs:57-92 | if `Page` or `EventArgs` is unresolved nothing is ever reported; otherwise the per-class rule decides |
| `SetViewStateUserKeyScenarios.ProtectedOnInitSettingKeyIsAccepted` | src/Microsoft.NetCore.Analyzers/Core/Security/SetViewStateUserKey.cs:71-75 | a page whose protected `OnInit` sets `ViewStateUserKey` on `this` is not reported |
| `SetViewStateUserKeyScenarios.PageInitSettingKeyThroughVirtualPropertyIsAccepted` | src/Microsoft.NetCore.Analyzers/Core/Security/SetViewStateUserKey.cs:76-80 | a page whose `Page_Init` sets the key on a virtual property of `this` is not reported |
| `SetViewStateUserKeyScenarios.PublicOnInitIsReported` | src/Microsoft.NetCore.Analyzers/Core/Security/SetViewStateUserKey.cs:71-90 | a public `OnInit` is no candidate, so the page is reported with its name |
| `SetViewStateUserKeyScenarios.OnlyFirstCandidateIsExamined` | src/Microsoft.NetCore.Analyzers/Core/Security/SetViewStateUserKey.cs:71-75 | when the first `OnInit` candidate (a generic `OnInit<T>(EventArgs)` declared earlier) does not set the key, a later one that does is ignored and the page is reported |
| `SetViewStateUserKeyScenarios.IndirectSubclassIsNotExamined` | src/Microsoft.NetCore.Analyzers/Core/Security/SetViewStateUserKey.cs:65-68 | a class deriving from a subclass of `Page` is not reported |
| `SetViewStateUserKeyScenarios.UnresolvedPageReportsNothing` | src/Microsoft.NetCore.Analyzers/Core/Security/SetViewStateUserKey.cs:57-61 | without `System.Web.UI.Page` in the compilation no class is reported |

## Left out

- The mixing functions of `RoslynHashCode`, `HashUtilities.Combine` and each component's `GetHashCode` are library code. They are parameters (`Hashers`), and every lemma holds for all of them.
- The `CacheBasedEquatable` base class is not part of this model. Its hash caching and the `Equals`/`GetHashCode` wrappers around `ComputeEqualsByHashCodeParts` and `ComputeHashCodeParts` are left out.
- The four callback fields of `InterproceduralAnalysisData` are carried as values of opaque type parameters. Hashing and equality never read them.
- The concrete types of the record's components (analysis data, `AnalysisEntity`, `PointsToAbstractValue`, the immutable dictionaries, stack and set) are type parameters. Only their hashes matter to the modelled code.
- Immutability of both keys follows from their being Dafny datatypes: a field is set once, by the constructor.
- Diagnostic descriptor, localized strings, analyzer registration, concurrent execution and generated-code configuration are host plumbing.
- The diagnostic's source location is not modelled. A `Diagnostic` holds only the rule id and the message argument (the class name).
- Roslyn's symbol resolution, `GetTopmostOperationBlock` and symbol `Equals` are given as input. A method's operation block is an `Option`, and symbol equality is datatype equality.
- Roslyn's `Descendants()` of a `null` block yields nothing. That library behaviour is taken as given, so a method without a body never sets the key.
- The `IsProtected()` extension is not part of this model. It is taken to mean declared accessibility `Protected` exactly.
- Operation kinds other than simple assignment, property reference and instance reference are one `OtherOperation` kind carrying its children. `Descendants` lists in pre-order; the rule uses only membership, so the order does not matter.
- The host's iteration over all named types of a compilation is not modelled. The rule is stated per named type.
- LdapSinks.cs, TaintedDataAnalysis.TaintedDataAnalysisDomain.cs and TemporarySet`1.cs are not part of this model. The first is a static catalogue built by helpers not shown, the second an empty subclass, the third a pooling utility.
