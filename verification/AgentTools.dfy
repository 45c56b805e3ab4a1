/** How a call finds its tool, and which batches run one call at a time. */
module AgentTools {
  import opened Strings
  import opened AgentEvents

  datatype Tool = Tool(name: string, sequential: bool)

  function LowerChar(c: char): char {
    if 'A' <= c <= 'Z' then (c as int - 'A' as int + 'a' as int) as char else c
  }

  function Lower(s: string): (r: string)
    ensures |r| == |s|
  {
    if s == "" then "" else [LowerChar(s[0])] + Lower(s[1..])
  }

  const TOOL_ALIASES: map<string, string> := map[
    "view_file" := "read",
    "view" := "read",
    "replace_file_content" := "edit",
    "write_to_file" := "write",
    "run_command" := "bash",
    "execute_command" := "bash",
    "grep_search" := "grep",
    "find_by_name" := "find",
    "list_dir" := "ls",
    "read_url_content" := "web_fetch",
    "fetch_web_page" := "web_fetch",
    "search_web" := "web_search",
    "websearch" := "web_search"]

  function FindTool(tools: seq<Tool>, wanted: Tool -> bool): (found: Option<Tool>)
    ensures found.Some? ==> wanted(found.value) && found.value in tools
    ensures found.None? ==> forall t :: t in tools ==> !wanted(t)
  {
    if tools == [] then None
    else if wanted(tools[0]) then Some(tools[0])
    else FindTool(tools[1..], wanted)
  }

  function Named(name: string): Tool -> bool { (t: Tool) => t.name == name }

  /** The exact name first, then the name in any case, then an alias. */
  function ResolveTool(tools: seq<Tool>, name: string): Option<Tool> {
    var exact := FindTool(tools, Named(name));
    if exact.Some? then exact
    else
      var lower := Lower(name);
      var caseMatch := FindTool(tools, (t: Tool) => Lower(t.name) == lower);
      if caseMatch.Some? then caseMatch
      else if lower in TOOL_ALIASES then
        var target := TOOL_ALIASES[lower];
        FindTool(tools, (t: Tool) => t.name == target || Lower(t.name) == Lower(target))
      else None
  }

  /** The first tool that is wanted. */
  lemma {:induction false} FindToolIsFirst(tools: seq<Tool>, wanted: Tool -> bool) returns (k: nat)
    requires FindTool(tools, wanted).Some?
    ensures k < |tools| && tools[k] == FindTool(tools, wanted).value
    ensures forall i :: 0 <= i < k ==> !wanted(tools[i])
  {
    if wanted(tools[0]) {
      k := 0;
    } else {
      k := FindToolIsFirst(tools[1..], wanted);
      k := k + 1;
    }
  }

  predicate SameButCase(a: string, b: string) { Lower(a) == Lower(b) }

  /**
   * A call finds a tool of its exact name if there is one, else one whose name differs in case only, else one
   * that its name is an alias of, and nothing if there is none of these.
   */
  lemma CallsFindTheirTool(tools: seq<Tool>, name: string)
    ensures var found := ResolveTool(tools, name);
      && (found.Some? ==> found.value in tools)
      && ((exists t :: t in tools && t.name == name) ==> found.Some? && found.value.name == name)
      && ((forall t :: t in tools ==> t.name != name) && (exists t :: t in tools && SameButCase(t.name, name)) ==>
            found.Some? && SameButCase(found.value.name, name))
      && ((forall t :: t in tools ==> !SameButCase(t.name, name)) && Lower(name) !in TOOL_ALIASES ==> found.None?)
      && ((forall t :: t in tools ==> !SameButCase(t.name, name)) && Lower(name) in TOOL_ALIASES ==>
            var target := TOOL_ALIASES[Lower(name)];
            && (found.Some? ==> SameButCase(found.value.name, target))
            && (found.None? ==> forall t :: t in tools ==> !SameButCase(t.name, target)))
  {
    var exact := FindTool(tools, Named(name));
    if exact.None? {
      assert forall t :: t in tools ==> !Named(name)(t);
      assert forall t :: t in tools ==> t.name != name;
    } else {
      assert SameButCase(exact.value.name, name);
    }
  }

  /** The batch looks its calls up by exact name only. */
  predicate AsksForSequence(tools: seq<Tool>, call: ToolCall) {
    var tool := FindTool(tools, Named(call.name));
    tool.Some? && tool.value.sequential
  }

  predicate RunsInSequence(tools: seq<Tool>, calls: seq<ToolCall>) {
    exists k :: 0 <= k < |calls| && AsksForSequence(tools, calls[k])
  }

  /**
   * A call of a tool that must run alone makes its batch sequential if and only if it names the tool
   * exactly: a call that reaches it in another case or by an alias does not.
   */
  lemma SequentialToolsAreSeenByName(tools: seq<Tool>, call: ToolCall)
    requires ResolveTool(tools, call.name).Some? && ResolveTool(tools, call.name).value.sequential
    ensures AsksForSequence(tools, call) <==> exists t :: t in tools && t.name == call.name
  {
    var exact := FindTool(tools, Named(call.name));
    if exact.Some? {
      assert exact.value in tools && exact.value.name == call.name;
    } else {
      forall t | t in tools ensures t.name != call.name {
        assert !Named(call.name)(t);
      }
    }
  }

  predicate NamesSequential(tools: seq<Tool>, call: ToolCall, t: Tool) {
    t in tools && t.name == call.name && t.sequential
  }

  predicate OnlyOneNamed(tools: seq<Tool>, t: Tool) { forall u :: u in tools && u.name == t.name ==> u == t }

  /** One such call among the calls of a batch is enough, and without one the batch runs in parallel. */
  lemma OneSequentialCallSuffices(tools: seq<Tool>, calls: seq<ToolCall>)
    ensures RunsInSequence(tools, calls) ==> exists k, t :: 0 <= k < |calls| && NamesSequential(tools, calls[k], t)
    ensures (exists k, t :: 0 <= k < |calls| && NamesSequential(tools, calls[k], t) && OnlyOneNamed(tools, t)) ==>
      RunsInSequence(tools, calls)
  {
    if k, t :| 0 <= k < |calls| && NamesSequential(tools, calls[k], t) && OnlyOneNamed(tools, t) {
      assert Named(calls[k].name)(t);
      assert AsksForSequence(tools, calls[k]);
    }
    if RunsInSequence(tools, calls) {
      var k :| 0 <= k < |calls| && AsksForSequence(tools, calls[k]);
      var found := FindTool(tools, Named(calls[k].name)).value;
      assert NamesSequential(tools, calls[k], found);
    }
  }

  lemma LowerOfTwo()
    ensures Lower("LS") == "ls" == Lower("ls")
  {
    assert Lower("S") == "s" && Lower("s") == "s" by { assert "S"[1..] == "" == "s"[1..]; }
    assert "LS"[1..] == "S" && "ls"[1..] == "s";
  }

  /** A call in another case reaches a tool that must run alone, and its batch still runs in parallel. */
  lemma OtherCaseEscapesTheSequence()
    ensures var tool, call := Tool("ls", true), ToolCall("1", "LS", "");
      ResolveTool([tool], call.name) == Some(tool) && !RunsInSequence([tool], [call])
  {
    hide Lower;
    LowerOfTwo();
    var tool := Tool("ls", true);
    assert !Named("LS")(tool) && [tool][1..] == [];
    assert FindTool([tool], Named("LS")) == None;
  }
}
