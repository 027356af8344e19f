/** The records that travel from the tracer to the collector: the C++ structs of
    traces.hh and, field by field, the Ruby classes of trace.rb. */
module Traces {
  datatype Option<+T> = None | Some(value: T)

  /** One position in the list of generic arguments: the union of the types seen there. */
  datatype Argument = Argument(members: seq<ConstantInstance>)

  /** The summary of one value: the name of its class (or, with `singleton`, of the class
      object it is) and one argument per generic parameter. */
  datatype ConstantInstance =
    ConstantInstance(name: string, singleton: bool, genericArguments: seq<Argument>)

  datatype ParamKind = Required | Optional | Rest | KeywordRequired | KeywordOptional | KeywordRest

  datatype Param = Param(name: Option<string>, kind: ParamKind, typeName: ConstantInstance)

  datatype BlockParam = BlockParam(name: Option<string>, traces: seq<BlockTrace>)

  datatype BlockTrace = BlockTrace(
    selfType: ConstantInstance, returnType: ConstantInstance,
    params: seq<Param>, blockParam: Option<BlockParam>)

  datatype ClassKind = ModuleKind | ClassKind

  datatype Constant = Constant(
    name: string, anonymous: bool, kind: ClassKind, superclass: Option<string>,
    includedModules: seq<string>, prependedModules: seq<string>, extendedModules: seq<string>)

  datatype MethodKind = InstanceMethod | SingletonMethod

  datatype Visibility = Public | Private | Protected

  datatype Trace = Trace(
    methodName: string, methodKind: MethodKind, visibility: Visibility,
    returnType: ConstantInstance, owner: ConstantInstance, callee: Option<ConstantInstance>,
    constantUpdates: seq<Constant>, params: seq<Param>, blockParam: Option<BlockParam>)
}
