/** The bot's own tools (src/chat/tools/toolset.py): one example tool that hands back the
    turn's dependencies, and the filter that hides every tool whose name starts with
    "dev_" outside the development environment. The tool registry is the list of tool
    names; what the example tool logs is not modelled. */
module ChatTools {
  import opened Types
  import opened Strings

  const DevPrefix := "dev_"

  const DevDebugName := "dev_debug_dependencies"

  /** The filter of `main_toolset`. */
  predicate ToolVisible(env: EnvironmentTag, name: string) {
    env == Dev || !StartsWith(name, DevPrefix)
  }

  /** The tools offered to the agent: the registered ones the filter lets through, in
      registration order. */
  function VisibleTools(env: EnvironmentTag, names: seq<string>): (r: seq<string>)
    ensures forall n :: n in r <==> n in names && ToolVisible(env, n)
    ensures |r| <= |names|
  {
    if |names| == 0 then []
    else if ToolVisible(env, names[0]) then [names[0]] + VisibleTools(env, names[1..])
    else VisibleTools(env, names[1..])
  }

  /** In development every tool is offered, in registration order. */
  lemma {:induction false} DevSeesEverything(names: seq<string>)
    ensures VisibleTools(Dev, names) == names
  {
    if |names| > 0 {
      DevSeesEverything(names[1..]);
      assert names == [names[0]] + names[1..];
    }
  }

  /** In production exactly the tools without the prefix are offered, and a tool
      without the prefix is offered in every environment. */
  lemma ProdHidesDevTools(env: EnvironmentTag, name: string)
    ensures ToolVisible(Prod, name) <==> !StartsWith(name, DevPrefix)
    ensures !StartsWith(name, DevPrefix) ==> ToolVisible(env, name)
  {
  }

  /** The example tool is offered in development only. */
  lemma DebugToolDevOnly()
    ensures ToolVisible(Dev, DevDebugName)
    ensures !ToolVisible(Prod, DevDebugName)
  {
    assert DevDebugName[..4] == DevPrefix;
  }

  /** `dev_debug_dependencies`: the same dependencies object, untouched. */
  method DevDebugDependencies(deps: Dependencies, input: string) returns (r: Dependencies)
    ensures r == deps
  {
    r := deps;
  }
}
