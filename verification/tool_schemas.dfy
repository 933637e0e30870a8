/** The tool definitions one client is shown, and the original definitions its calls are checked against.
 */
module ToolSchemas {
  import opened Collections
  import opened JsonSchema
  import opened SchemaProjection
  import opened SchemaDeterminacy
  import opened SchemaPreservation

  /** A tool as the server lists it; either field can be missing. */
  datatype Tool = Tool(name: Option<Word>, inputSchema: Option<Doc>)

  /** The verdict of a schema, however far its references have to be unfolded. */
  ghost predicate Valid(o: Oracle, schema: Doc, v: Value) {
    exists n: nat :: Accepts(o, schema, schema, v, n)
  }

  /** A tool that can be shown; checked says which documents are schemas at all. */
  predicate Adaptable(checked: Doc -> bool, budget: nat, t: Tool) {
    t.name.Some? && t.inputSchema.Some? && checked(t.inputSchema.value)
    && ProjectWithin(t.inputSchema.value, budget).Some?
  }

  predicate AllAdaptable(checked: Doc -> bool, budget: nat, tools: seq<Tool>) {
    forall i | 0 <= i < |tools| :: Adaptable(checked, budget, tools[i])
  }

  function Shown(budget: nat, t: Tool): Tool
    requires t.inputSchema.Some? && ProjectWithin(t.inputSchema.value, budget).Some?
  {
    t.(inputSchema := ProjectWithin(t.inputSchema.value, budget))
  }

  predicate ShownAs(checked: Doc -> bool, budget: nat, t: Tool, r: Tool) {
    Adaptable(checked, budget, t) && r == Shown(budget, t)
  }

  /** The definitions calls are checked against; the last of equal names counts. */
  function Originals(tools: seq<Tool>): map<Word, Doc> {
    if tools == [] then map[]
    else
      var init, last := Originals(tools[..|tools| - 1]), tools[|tools| - 1];
      if last.name.Some? && last.inputSchema.Some? then init[last.name.value := last.inputSchema.value] else init
  }

  /** The first i tools, as they are shown and as calls are checked against them. */
  ghost predicate AdaptedSoFar(checked: Doc -> bool, tools: seq<Tool>, i: nat, shown: seq<Tool>,
                               originals: map<Word, Doc>)
    requires i <= |tools|
  {
    && |shown| == i && (forall j | 0 <= j < i :: ShownAs(checked, BUDGET, tools[j], shown[j]))
    && originals == Originals(tools[..i])
  }

  lemma AdaptedMore(checked: Doc -> bool, tools: seq<Tool>, i: nat, shown: seq<Tool>, originals: map<Word, Doc>)
    requires i < |tools| && AdaptedSoFar(checked, tools, i, shown, originals) && Adaptable(checked, BUDGET, tools[i])
    ensures AdaptedSoFar(checked, tools, i + 1, shown + [Shown(BUDGET, tools[i])],
                         originals[tools[i].name.value := tools[i].inputSchema.value])
  {
    assert tools[..i + 1][..i] == tools[..i];
  }

  lemma AdaptedAll(checked: Doc -> bool, tools: seq<Tool>, shown: seq<Tool>, originals: map<Word, Doc>)
    requires AdaptedSoFar(checked, tools, |tools|, shown, originals)
    ensures AllAdaptable(checked, BUDGET, tools) && |shown| == |tools| && originals == Originals(tools)
    ensures forall i | 0 <= i < |tools| :: ShownAs(checked, BUDGET, tools[i], shown[i])
  {
    assert tools[..|tools|] == tools;
  }

  class DshToolSchemas {
    var validators: map<Word, Doc>

    constructor ()
      ensures validators == map[]
    {
      validators := map[];
    }

    /** The whole batch is adapted and replaces the definitions, or nothing changes. */
    method Adapt(checked: Doc -> bool, tools: seq<Tool>) returns (shown: Option<seq<Tool>>)
      modifies this
      ensures shown.Some? <==> AllAdaptable(checked, BUDGET, tools)
      ensures shown.None? ==> validators == old(validators)
      ensures shown.Some? ==> |shown.value| == |tools| && validators == Originals(tools)
      ensures shown.Some? ==> forall i | 0 <= i < |tools| :: ShownAs(checked, BUDGET, tools[i], shown.value[i])
    {
      var result: seq<Tool>, originals: map<Word, Doc> := [], map[];
      for i := 0 to |tools|
        invariant validators == old(validators) && AdaptedSoFar(checked, tools, i, result, originals)
      {
        var tool := tools[i];
        if tool.inputSchema.None? || !checked(tool.inputSchema.value) {
          return None;
        }
        var projector := new SchemaProjector(tool.inputSchema.value);
        var projected := projector.ProjectSchema();
        if projected.None? || tool.name.None? {
          return None;
        }
        AdaptedMore(checked, tools, i, result, originals);
        originals := originals[tool.name.value := tool.inputSchema.value];
        result := result + [tool.(inputSchema := projected)];
      }
      AdaptedAll(checked, tools, result, originals);
      validators := originals;
      return Some(result);
    }

    /** Whether the original definition of a tool accepts the arguments. */
    ghost predicate Validate(o: Oracle, name: Word, arguments: Value)
      reads this
    {
      name in validators && Valid(o, validators[name], arguments)
    }
  }

  lemma {:induction false} OriginalsLookup(tools: seq<Tool>, i: nat)
    requires forall j | 0 <= j < |tools| :: tools[j].name.Some? && tools[j].inputSchema.Some?
    requires i < |tools| && forall j | i < j < |tools| :: tools[j].name != tools[i].name
    ensures tools[i].name.value in Originals(tools)
    ensures Originals(tools)[tools[i].name.value] == tools[i].inputSchema.value
    decreases |tools|
  {
    if i < |tools| - 1 {
      OriginalsLookup(tools[..|tools| - 1], i);
    }
  }

  /** A definition in force is that of the last tool of its name. */
  lemma {:induction false} DefinitionOf(tools: seq<Tool>, name: Word) returns (i: nat)
    requires name in Originals(tools)
    ensures i < |tools| && tools[i].name == Some(name) && tools[i].inputSchema == Some(Originals(tools)[name])
    ensures forall j | i < j < |tools| && tools[j].inputSchema.Some? :: tools[j].name != tools[i].name
    decreases |tools|
  {
    var init, last := tools[..|tools| - 1], tools[|tools| - 1];
    if last.name == Some(name) && last.inputSchema.Some? {
      i := |tools| - 1;
    } else {
      i := DefinitionOf(init, name);
    }
  }

  /** Arguments that pass the check of a call are allowed by the definition the client was shown. */
  lemma CheckedCallsFitWhatIsShown(o: Oracle, checked: Doc -> bool, budget: nat, tools: seq<Tool>, i: nat,
      arguments: Value)
    requires AllAdaptable(checked, budget, tools) && i < |tools| && WellFormed(tools[i].inputSchema.value)
    requires forall j | i < j < |tools| :: tools[j].name != tools[i].name
    requires Separable(Shown(budget, tools[i]).inputSchema.value)
    requires tools[i].name.value in Originals(tools) && Valid(o, Originals(tools)[tools[i].name.value], arguments)
    ensures Valid(o, Shown(budget, tools[i]).inputSchema.value, arguments)
  {
    OriginalsLookup(tools, i);
    var original := tools[i].inputSchema.value;
    var n: nat :| Accepts(o, original, original, arguments, n);
    ProjectionAccepts(o, original, budget, arguments, n);
  }
}
