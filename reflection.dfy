/**
 * The reflection data ANGLE reports after a successful compile
 * (sh::ShaderVariable, sh::InterfaceBlock and the eight lists a compiler
 * handle exposes) and its JSON form: `SerializeShaderVariable`,
 * `SerializeInterfaceBlock` and `SerializeActiveVariablesToJson`.
 *
 * The JSON form drops a member exactly when it holds its "absent" value
 * (-1 for location, binding and offset, empty for lists and names, 0 for a
 * block's array size).
 */
module Reflection {
  import opened Wrappers
  import opened JsonValues

  datatype ShaderVariable = ShaderVariable(
    name: string,
    mappedName: string,
    typeEnum: nat,
    precisionEnum: nat,
    staticUse: bool,
    active: bool,
    location: int,
    binding: int,
    offset: int,
    isRowMajorLayout: bool,
    arraySizes: seq<nat>,
    structOrBlockName: string,
    fields: seq<ShaderVariable>)

  /** sh::BlockLayoutType; `UnknownLayout` is any value outside the four named ones. */
  datatype BlockLayout = Std140 | Std430 | Packed | Shared | UnknownLayout

  datatype InterfaceBlock = InterfaceBlock(
    name: string,
    mappedName: string,
    instanceName: string,
    arraySize: nat,
    layout: BlockLayout,
    binding: int,
    staticUse: bool,
    active: bool,
    isRowMajorLayout: bool,
    fields: seq<ShaderVariable>)

  /** The eight lists of a compiled handle; None is a null pointer from the getter. */
  datatype ActiveVariables = ActiveVariables(
    attributes: Option<seq<ShaderVariable>>,
    inputVaryings: Option<seq<ShaderVariable>>,
    outputVaryings: Option<seq<ShaderVariable>>,
    outputVariables: Option<seq<ShaderVariable>>,
    uniforms: Option<seq<ShaderVariable>>,
    uniformBlocks: Option<seq<InterfaceBlock>>,
    shaderStorageBlocks: Option<seq<InterfaceBlock>>,
    interfaceBlocks: Option<seq<InterfaceBlock>>)

  /** The members every serialized variable carries. */
  const VariableKeys: set<string> :=
    {"name", "mapped_name", "type_enum", "precision_enum", "static_use", "active", "is_row_major"}

  /** The members every serialized block carries. */
  const BlockKeys: set<string> :=
    {"name", "mapped_name", "layout", "static_use", "active", "is_row_major_layout", "fields"}

  /** The members of the serialized reflection root. */
  const RootKeys: set<string> :=
    {"attributes", "input_varyings", "output_varyings", "output_variables", "uniforms",
     "uniform_blocks", "shader_storage_buffer_blocks", "generic_interface_blocks"}

  /** `if (present) obj[key] = value;` */
  function Put(m: map<string, Json>, present: bool, key: string, value: Json): map<string, Json> {
    if present then m[key := value] else m
  }

  lemma PutKeys(m: map<string, Json>, present: bool, key: string, value: Json)
    ensures Put(m, present, key, value).Keys == m.Keys + (if present then {key} else {})
  {
  }

  function NatsJson(ns: seq<nat>): (r: seq<Json>)
    ensures |r| == |ns| && forall i | 0 <= i < |ns| :: r[i] == JInt(ns[i])
  {
    seq(|ns|, i requires 0 <= i < |ns| => JInt(ns[i]))
  }

  /** The members `SerializeShaderVariable` sets before `is_row_major`. */
  function HeadMembers(v: ShaderVariable): map<string, Json> {
    var m := map[
      "name" := JString(v.name),
      "mapped_name" := JString(v.mappedName),
      "type_enum" := JInt(v.typeEnum),
      "precision_enum" := JInt(v.precisionEnum),
      "static_use" := JBool(v.staticUse),
      "active" := JBool(v.active)];
    var m := Put(m, v.location != -1, "location", JInt(v.location));
    var m := Put(m, v.binding != -1, "binding", JInt(v.binding));
    Put(m, v.offset != -1, "offset", JInt(v.offset))
  }

  lemma HeadMemberKeys(v: ShaderVariable)
    ensures HeadMembers(v).Keys == {"name", "mapped_name", "type_enum", "precision_enum", "static_use", "active"}
      + (if v.location != -1 then {"location"} else {})
      + (if v.binding != -1 then {"binding"} else {})
      + (if v.offset != -1 then {"offset"} else {})
  {
  }

  /** The members of a serialized variable whose serialized fields are `fieldsJson`. */
  function Members(v: ShaderVariable, fieldsJson: seq<Json>): map<string, Json> {
    var m := HeadMembers(v)["is_row_major" := JBool(v.isRowMajorLayout)];
    var m := Put(m, v.arraySizes != [], "array_sizes", JArray(NatsJson(v.arraySizes)));
    var m := Put(m, v.structOrBlockName != [], "struct_or_block_name", JString(v.structOrBlockName));
    Put(m, v.fields != [], "fields", JArray(fieldsJson))
  }

  /** The JSON object `SerializeShaderVariable` builds, member by member in the source's order. */
  function VariableJson(v: ShaderVariable): (j: Json)
    ensures j.JObject?
    decreases v, 1
  {
    JObject(Members(v, VariablesJson(v.fields)))
  }

  /** The serialized variables of a list, in order. */
  function VariablesJson(vs: seq<ShaderVariable>): (r: seq<Json>)
    ensures |r| == |vs| && forall i | 0 <= i < |vs| :: r[i] == VariableJson(vs[i])
    decreases vs, 0
  {
    seq(|vs|, i requires 0 <= i < |vs| => VariableJson(vs[i]))
  }

  /** Which members a serialized variable has: seven always, six exactly when not at their absent value. */
  lemma MemberKeys(v: ShaderVariable, fieldsJson: seq<Json>)
    ensures Members(v, fieldsJson).Keys == VariableKeys
      + (if v.location != -1 then {"location"} else {})
      + (if v.binding != -1 then {"binding"} else {})
      + (if v.offset != -1 then {"offset"} else {})
      + (if v.arraySizes != [] then {"array_sizes"} else {})
      + (if v.structOrBlockName != [] then {"struct_or_block_name"} else {})
      + (if v.fields != [] then {"fields"} else {})
  {
    var m0 := HeadMembers(v);
    HeadMemberKeys(v);
    var m1 := m0["is_row_major" := JBool(v.isRowMajorLayout)];
    var m2 := Put(m1, v.arraySizes != [], "array_sizes", JArray(NatsJson(v.arraySizes)));
    PutKeys(m1, v.arraySizes != [], "array_sizes", JArray(NatsJson(v.arraySizes)));
    var m3 := Put(m2, v.structOrBlockName != [], "struct_or_block_name", JString(v.structOrBlockName));
    PutKeys(m2, v.structOrBlockName != [], "struct_or_block_name", JString(v.structOrBlockName));
    PutKeys(m3, v.fields != [], "fields", JArray(fieldsJson));
    assert Members(v, fieldsJson) == Put(m3, v.fields != [], "fields", JArray(fieldsJson));
  }

  /** The serialized fields of a variable, in order. */
  lemma FieldsPreserved(v: ShaderVariable)
    requires v.fields != []
    ensures VariableJson(v).fields["fields"].JArray?
    ensures var items := VariableJson(v).fields["fields"].items;
      |items| == |v.fields| && forall i | 0 <= i < |items| :: items[i] == VariableJson(v.fields[i])
  {
  }

  /** `SerializeShaderVariable`: fills the object member by member, fields in a loop. */
  method SerializeShaderVariable(v: ShaderVariable) returns (j: Json)
    ensures j == VariableJson(v)
    decreases v, 1
  {
    var m: map<string, Json> := map[];
    m := m["name" := JString(v.name)];
    m := m["mapped_name" := JString(v.mappedName)];
    m := m["type_enum" := JInt(v.typeEnum)];
    m := m["precision_enum" := JInt(v.precisionEnum)];
    m := m["static_use" := JBool(v.staticUse)];
    m := m["active" := JBool(v.active)];
    if v.location != -1 {
      m := m["location" := JInt(v.location)];
    }
    if v.binding != -1 {
      m := m["binding" := JInt(v.binding)];
    }
    if v.offset != -1 {
      m := m["offset" := JInt(v.offset)];
    }
    assert m == HeadMembers(v);
    m := m["is_row_major" := JBool(v.isRowMajorLayout)];
    if v.arraySizes != [] {
      m := m["array_sizes" := JArray(NatsJson(v.arraySizes))];
    }
    if v.structOrBlockName != [] {
      m := m["struct_or_block_name" := JString(v.structOrBlockName)];
    }
    if v.fields != [] {
      var items := SerializeList(v.fields);
      m := m["fields" := JArray(items)];
    }
    j := JObject(m);
  }

  // ---------------------------------------------------------------------
  // Interface blocks
  // ---------------------------------------------------------------------

  /** The `layout` string of a block. */
  function LayoutName(layout: BlockLayout): string {
    match layout
    case Shared => "shared"
    case Packed => "packed"
    case Std140 => "std140"
    case Std430 => "std430"
    case UnknownLayout => "unknown"
  }

  /** Distinct layouts get distinct strings, each one of the five names. */
  lemma LayoutNameInjective(a: BlockLayout, b: BlockLayout)
    ensures LayoutName(a) in {"shared", "packed", "std140", "std430", "unknown"}
    ensures LayoutName(a) == LayoutName(b) <==> a == b
  {
  }

  /** The members of a serialized block whose serialized fields are `fieldsJson`. */
  function BlockMembers(b: InterfaceBlock, fieldsJson: seq<Json>): map<string, Json> {
    var m := map["name" := JString(b.name), "mapped_name" := JString(b.mappedName)];
    var m := Put(m, b.instanceName != [], "instance_name", JString(b.instanceName));
    var m := Put(m, b.arraySize > 0, "array_size", JInt(b.arraySize));
    var m := m["layout" := JString(LayoutName(b.layout))];
    var m := Put(m, b.binding != -1, "binding", JInt(b.binding));
    m["static_use" := JBool(b.staticUse)]["active" := JBool(b.active)]
      ["is_row_major_layout" := JBool(b.isRowMajorLayout)]["fields" := JArray(fieldsJson)]
  }

  /** The JSON object `SerializeInterfaceBlock` builds. */
  function BlockJson(b: InterfaceBlock): Json {
    JObject(BlockMembers(b, VariablesJson(b.fields)))
  }

  /** Which members a serialized block has: seven always, three exactly when not at their absent value. */
  lemma BlockMemberKeys(b: InterfaceBlock, fieldsJson: seq<Json>)
    ensures BlockMembers(b, fieldsJson).Keys == BlockKeys
      + (if b.instanceName != [] then {"instance_name"} else {})
      + (if b.arraySize > 0 then {"array_size"} else {})
      + (if b.binding != -1 then {"binding"} else {})
  {
    var m0 := map["name" := JString(b.name), "mapped_name" := JString(b.mappedName)];
    var m1 := Put(m0, b.instanceName != [], "instance_name", JString(b.instanceName));
    PutKeys(m0, b.instanceName != [], "instance_name", JString(b.instanceName));
    var m2 := Put(m1, b.arraySize > 0, "array_size", JInt(b.arraySize));
    PutKeys(m1, b.arraySize > 0, "array_size", JInt(b.arraySize));
    var m3 := m2["layout" := JString(LayoutName(b.layout))];
    PutKeys(m3, b.binding != -1, "binding", JInt(b.binding));
  }

  /** A block's `layout` member names its layout, and its `fields` member lists its fields in order. */
  lemma BlockLayoutAndFields(b: InterfaceBlock)
    ensures "layout" in BlockJson(b).fields && BlockJson(b).fields["layout"] == JString(LayoutName(b.layout))
    ensures "fields" in BlockJson(b).fields && BlockJson(b).fields["fields"] == JArray(VariablesJson(b.fields))
  {
  }

  /** `SerializeInterfaceBlock`: fills the object member by member, fields in a loop. */
  method SerializeInterfaceBlock(b: InterfaceBlock) returns (j: Json)
    ensures j == BlockJson(b)
  {
    var m: map<string, Json> := map[];
    m := m["name" := JString(b.name)];
    m := m["mapped_name" := JString(b.mappedName)];
    if b.instanceName != [] {
      m := m["instance_name" := JString(b.instanceName)];
    }
    if b.arraySize > 0 {
      m := m["array_size" := JInt(b.arraySize)];
    }
    var layoutStr := "unknown";
    match b.layout {
      case Shared => layoutStr := "shared";
      case Packed => layoutStr := "packed";
      case Std140 => layoutStr := "std140";
      case Std430 => layoutStr := "std430";
      case UnknownLayout =>
    }
    m := m["layout" := JString(layoutStr)];
    if b.binding != -1 {
      m := m["binding" := JInt(b.binding)];
    }
    m := m["static_use" := JBool(b.staticUse)];
    m := m["active" := JBool(b.active)];
    m := m["is_row_major_layout" := JBool(b.isRowMajorLayout)];
    var items := SerializeList(b.fields);
    m := m["fields" := JArray(items)];
    j := JObject(m);
  }

  /** The `for (var : list) push_back(SerializeShaderVariable(var))` loops. */
  method SerializeList(vs: seq<ShaderVariable>) returns (items: seq<Json>)
    ensures items == VariablesJson(vs)
    decreases vs, 0
  {
    items := [];
    for i := 0 to |vs|
      invariant items == VariablesJson(vs[..i])
    {
      var item := SerializeShaderVariable(vs[i]);
      items := items + [item];
    }
    assert vs[..|vs|] == vs;
  }

  // ---------------------------------------------------------------------
  // The reflection root
  // ---------------------------------------------------------------------

  /** The serialized blocks of a list, in order. */
  function BlocksJson(bs: seq<InterfaceBlock>): (r: seq<Json>)
    ensures |r| == |bs| && forall i | 0 <= i < |bs| :: r[i] == BlockJson(bs[i])
  {
    seq(|bs|, i requires 0 <= i < |bs| => BlockJson(bs[i]))
  }

  /** `process_shader_variable_list`: a null list becomes []. */
  function VariableListJson(list: Option<seq<ShaderVariable>>): Json {
    JArray(if list.Some? then VariablesJson(list.value) else [])
  }

  /** `process_interface_block_list`: a null list becomes []. */
  function BlockListJson(list: Option<seq<InterfaceBlock>>): Json {
    JArray(if list.Some? then BlocksJson(list.value) else [])
  }

  /** The JSON object `SerializeActiveVariablesToJson` builds. */
  function ActiveVariablesJson(av: ActiveVariables): Json {
    JObject(map[
      "attributes" := VariableListJson(av.attributes),
      "input_varyings" := VariableListJson(av.inputVaryings),
      "output_varyings" := VariableListJson(av.outputVaryings),
      "output_variables" := VariableListJson(av.outputVariables),
      "uniforms" := VariableListJson(av.uniforms),
      "uniform_blocks" := BlockListJson(av.uniformBlocks),
      "shader_storage_buffer_blocks" := BlockListJson(av.shaderStorageBlocks),
      "generic_interface_blocks" := BlockListJson(av.interfaceBlocks)])
  }

  /** The root always has its eight lists, each an array. */
  lemma RootKeysPresent(av: ActiveVariables)
    ensures ActiveVariablesJson(av).fields.Keys == RootKeys
    ensures forall key | key in RootKeys :: ActiveVariablesJson(av).fields[key].JArray?
  {
  }

  /** A variable list the compiler does not report (a null pointer) is serialized as the empty array. */
  lemma NullListIsEmpty(av: ActiveVariables)
    ensures av.attributes.None? ==> ActiveVariablesJson(av).fields["attributes"] == JArray([])
    ensures av.uniforms.None? ==> ActiveVariablesJson(av).fields["uniforms"] == JArray([])
    ensures av.inputVaryings.None? ==> ActiveVariablesJson(av).fields["input_varyings"] == JArray([])
    ensures av.outputVaryings.None? ==> ActiveVariablesJson(av).fields["output_varyings"] == JArray([])
    ensures av.outputVariables.None? ==> ActiveVariablesJson(av).fields["output_variables"] == JArray([])
  {
    var f := ActiveVariablesJson(av).fields;
    assert f["attributes"] == VariableListJson(av.attributes) && f["uniforms"] == VariableListJson(av.uniforms);
    assert f["input_varyings"] == VariableListJson(av.inputVaryings);
    assert f["output_varyings"] == VariableListJson(av.outputVaryings);
    assert f["output_variables"] == VariableListJson(av.outputVariables);
  }

  /** A block list the compiler does not report is serialized as the empty array. */
  lemma NullBlockListIsEmpty(av: ActiveVariables)
    ensures av.uniformBlocks.None? ==> ActiveVariablesJson(av).fields["uniform_blocks"] == JArray([])
    ensures av.shaderStorageBlocks.None? ==> ActiveVariablesJson(av).fields["shader_storage_buffer_blocks"] == JArray([])
    ensures av.interfaceBlocks.None? ==> ActiveVariablesJson(av).fields["generic_interface_blocks"] == JArray([])
  {
  }

  /** A reported list is serialized, element by element, under its own key. */
  lemma ReportedListsInPlace(av: ActiveVariables)
    ensures av.attributes.Some? ==> ActiveVariablesJson(av).fields["attributes"] == JArray(VariablesJson(av.attributes.value))
    ensures av.inputVaryings.Some? ==> ActiveVariablesJson(av).fields["input_varyings"] == JArray(VariablesJson(av.inputVaryings.value))
    ensures av.outputVaryings.Some? ==> ActiveVariablesJson(av).fields["output_varyings"] == JArray(VariablesJson(av.outputVaryings.value))
    ensures av.outputVariables.Some? ==> ActiveVariablesJson(av).fields["output_variables"] == JArray(VariablesJson(av.outputVariables.value))
    ensures av.uniforms.Some? ==> ActiveVariablesJson(av).fields["uniforms"] == JArray(VariablesJson(av.uniforms.value))
    ensures av.uniformBlocks.Some? ==> ActiveVariablesJson(av).fields["uniform_blocks"] == JArray(BlocksJson(av.uniformBlocks.value))
    ensures av.shaderStorageBlocks.Some? ==>
      ActiveVariablesJson(av).fields["shader_storage_buffer_blocks"] == JArray(BlocksJson(av.shaderStorageBlocks.value))
    ensures av.interfaceBlocks.Some? ==>
      ActiveVariablesJson(av).fields["generic_interface_blocks"] == JArray(BlocksJson(av.interfaceBlocks.value))
  {
  }

  /** The variable-list lambda. */
  method ProcessVariableList(list: Option<seq<ShaderVariable>>) returns (j: Json)
    ensures j == VariableListJson(list)
  {
    if list.Some? {
      var items := SerializeList(list.value);
      j := JArray(items);
    } else {
      j := JArray([]);
    }
  }

  /** The block-list lambda. */
  method ProcessBlockList(list: Option<seq<InterfaceBlock>>) returns (j: Json)
    ensures j == BlockListJson(list)
  {
    if list.Some? {
      var bs := list.value;
      var items: seq<Json> := [];
      for i := 0 to |bs|
        invariant items == BlocksJson(bs[..i])
      {
        var item := SerializeInterfaceBlock(bs[i]);
        items := items + [item];
      }
      assert bs[..|bs|] == bs;
      j := JArray(items);
    } else {
      j := JArray([]);
    }
  }

  /** `SerializeActiveVariablesToJson`: the eight lists in the source's order. */
  method SerializeActiveVariablesToJson(av: ActiveVariables) returns (j: Json)
    ensures j == ActiveVariablesJson(av)
  {
    var root: map<string, Json> := map[];
    var list := ProcessVariableList(av.attributes);
    root := root["attributes" := list];
    list := ProcessVariableList(av.inputVaryings);
    root := root["input_varyings" := list];
    list := ProcessVariableList(av.outputVaryings);
    root := root["output_varyings" := list];
    list := ProcessVariableList(av.outputVariables);
    root := root["output_variables" := list];
    list := ProcessVariableList(av.uniforms);
    root := root["uniforms" := list];
    list := ProcessBlockList(av.uniformBlocks);
    root := root["uniform_blocks" := list];
    list := ProcessBlockList(av.shaderStorageBlocks);
    root := root["shader_storage_buffer_blocks" := list];
    list := ProcessBlockList(av.interfaceBlocks);
    root := root["generic_interface_blocks" := list];
    j := JObject(root);
  }
}
