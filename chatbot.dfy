/** The document chatbot (chatdoc/chatbot.py): one named tool per uploaded
    document, the citations harvested from the agent's tool calls, and the
    two transcripts a successful prompt appends to.

    The routing agent, the retrieval chain behind every tool and the
    conversation memories are foreign; the agent is modelled as a function
    from the prompt and the internal history to a failure or a result. */
module Chatbot {

  import opened Results
  import PathNames
  import Citation

  // ---------------------------------------------------------------------
  // Tool names

  /** The characters `[a-zA-Z0-9_-]` that the sanitizer keeps. */
  predicate IsToolNameChar(c: char) {
    ('a' <= c <= 'z') || ('A' <= c <= 'Z') || ('0' <= c <= '9') || c == '_' || c == '-'
  }

  predicate IsToolName(s: string) {
    forall i :: 0 <= i < |s| ==> IsToolNameChar(s[i])
  }

  /** `sanitize_tool_name`: every character outside `[a-zA-Z0-9_-]` becomes '-'. */
  function SanitizeToolName(raw: string): (name: string)
    ensures |name| == |raw|
    ensures IsToolName(name)
  {
    seq(|raw|, i requires 0 <= i < |raw| => if IsToolNameChar(raw[i]) then raw[i] else '-')
  }

  /** Allowed characters stay where they are; every other one becomes '-'. */
  lemma SanitizeCharacters(raw: string)
    ensures forall i :: 0 <= i < |raw| ==>
              (IsToolNameChar(raw[i]) ==> SanitizeToolName(raw)[i] == raw[i])
              && (!IsToolNameChar(raw[i]) ==> SanitizeToolName(raw)[i] == '-')
  {
  }

  /** A name is left unchanged exactly when it already is a tool name. */
  lemma SanitizeFixesExactlyToolNames(s: string)
    ensures SanitizeToolName(s) == s <==> IsToolName(s)
  {
    if IsToolName(s) {
      assert forall i :: 0 <= i < |s| ==> SanitizeToolName(s)[i] == s[i];
    }
  }

  /** Sanitizing twice is sanitizing once. */
  lemma SanitizeIdempotent(raw: string)
    ensures SanitizeToolName(SanitizeToolName(raw)) == SanitizeToolName(raw)
  {
    SanitizeFixesExactlyToolNames(SanitizeToolName(raw));
  }

  // ---------------------------------------------------------------------
  // Tools

  /** A LangChain `Tool` as the agent sees it; every tool runs the same
      retrieval chain, so only its name and description differ. */
  datatype Tool = Tool(name: string, description: string)

  const DescriptionPrefix := "useful when you want to answer questions about "

  /** The display name of an uploaded file: its stem, date-stripped.
      `stripDate` stands for `Utils.remove_date_from_filename`. */
  function DisplayName(fileName: string, stripDate: string -> string): (name: string) {
    stripDate(PathNames.Stem(fileName))
  }

  /** The display name ignores the directory and the extension of the file:
      it is the date-stripped base name. */
  lemma DisplayNameOfPath(dir: string, base: string, ext: string, stripDate: string -> string)
    requires base != "" && '/' !in base && ext != "" && '.' !in ext && '/' !in ext
    ensures DisplayName(dir + "/" + base + "." + ext, stripDate) == stripDate(base)
  {
    var file := base + "." + ext;
    assert '/' !in file by {
      forall k | 0 <= k < |file| ensures file[k] != '/' {
        if k < |base| { assert file[k] == base[k]; }
        else if k > |base| { assert file[k] == ext[k - |base| - 1]; }
      }
    }
    assert file != "." by { assert |file| >= 3; }
    PathNames.NameOfJoin(dir, file);
    assert dir + "/" + base + "." + ext == dir + "/" + file;
    PathNames.StemOfFileName(base, ext);
  }

  /** `create_tools`: one tool per key of the document dict, in key order. */
  function CreateTools(fileNames: seq<string>, stripDate: string -> string): (tools: seq<Tool>)
    ensures |tools| == |fileNames|
  {
    seq(|fileNames|, i requires 0 <= i < |fileNames| =>
      var display := DisplayName(fileNames[i], stripDate);
      Tool(SanitizeToolName(display), DescriptionPrefix + display))
  }

  /** Tool `i` is named after document `i`: its name is a valid tool name that
      sanitizing leaves alone, and its description ends with the unsanitized
      display name. */
  lemma ToolsNamedAfterDocuments(fileNames: seq<string>, stripDate: string -> string, i: nat)
    requires i < |fileNames|
    ensures var tool := CreateTools(fileNames, stripDate)[i];
            var display := DisplayName(fileNames[i], stripDate);
            && tool.name == SanitizeToolName(display)
            && tool.description == DescriptionPrefix + display
            && IsToolName(tool.name)
            && SanitizeToolName(tool.name) == tool.name
            && |tool.name| == |display|
            && tool.description[..|DescriptionPrefix|] == DescriptionPrefix
            && tool.description[|DescriptionPrefix|..] == display
  {
    SanitizeIdempotent(DisplayName(fileNames[i], stripDate));
  }

  /** Nothing rejects two documents whose names collide: files that differ
      only in their extension give two tools of the same name. */
  lemma ToolNamesCanCollide(stripDate: string -> string)
    ensures var tools := CreateTools(["report.pdf", "report.txt"], stripDate);
            && |tools| == 2
            && tools[0].name == tools[1].name
  {
    assert "report" + "." + "pdf" == "report.pdf";
    assert "report" + "." + "txt" == "report.txt";
    PathNames.StemOfFileName("report", "pdf");
    PathNames.StemOfFileName("report", "txt");
    assert DisplayName("report.pdf", stripDate) == DisplayName("report.txt", stripDate);
  }

  // ---------------------------------------------------------------------
  // What the agent returns

  /** The dict a tool call returned; only its "source_documents" entry is
      read, and it may be missing. */
  datatype ToolOutput = ToolOutput(sourceDocuments: Option<seq<Citation.Passage>>)

  /** One `(action, observation)` pair of the agent's intermediate steps. */
  datatype IntermediateStep = IntermediateStep(toolName: string, output: ToolOutput)

  /** The entries of the agent's result dict that the chatbot reads. */
  datatype AgentResult = AgentResult(output: string, agentHistory: seq<string>, steps: seq<IntermediateStep>)

  /** A call of the agent: it raises, or it returns its result. */
  datatype AgentOutcome = AgentFailed(reason: string) | AgentReturned(result: AgentResult)

  /** The flattening comprehension: the "source_documents" of every step, in
      step order; the first step without them raises `KeyError`. */
  function FlattenSourceDocuments(steps: seq<IntermediateStep>): (r: Result<seq<Citation.Passage>, Citation.KeyError>)
    ensures r.Ok? <==> forall i :: 0 <= i < |steps| ==> steps[i].output.sourceDocuments.Some?
    ensures r.Err? ==> r.error == Citation.KeyError("source_documents")
  {
    if steps == [] then Ok([])
    else match steps[0].output.sourceDocuments
      case None => Err(Citation.KeyError("source_documents"))
      case Some(docs) =>
        match FlattenSourceDocuments(steps[1..])
        case Err(e) => Err(e)
        case Ok(rest) => Ok(docs + rest)
  }

  /** A passage is in the flattened list iff some step returned it. */
  lemma {:induction false} FlattenedMembers(steps: seq<IntermediateStep>, p: Citation.Passage)
    requires FlattenSourceDocuments(steps).Ok?
    ensures p in FlattenSourceDocuments(steps).value
        <==> exists i :: 0 <= i < |steps| && p in steps[i].output.sourceDocuments.value
  {
    if steps != [] {
      FlattenedMembers(steps[1..], p);
      if exists i :: 0 <= i < |steps[1..]| && p in steps[1..][i].output.sourceDocuments.value {
        var i :| 0 <= i < |steps[1..]| && p in steps[1..][i].output.sourceDocuments.value;
        assert steps[i + 1] == steps[1..][i];
      }
      if exists i :: 0 <= i < |steps| && p in steps[i].output.sourceDocuments.value {
        var i :| 0 <= i < |steps| && p in steps[i].output.sourceDocuments.value;
        if i > 0 { assert steps[1..][i - 1] == steps[i]; }
      }
    }
  }

  /** `list(s)`: the elements of a set in some order, each exactly once. */
  method ListOf(s: set<Citation.Citation>) returns (xs: seq<Citation.Citation>)
    ensures Citation.Enumerates(xs, s)
    ensures |xs| == |s|
  {
    xs := [];
    var rest := s;
    while rest != {}
      invariant rest !! (set x | x in xs)
      invariant rest + (set x | x in xs) == s
      invariant forall i, j :: 0 <= i < j < |xs| ==> xs[i] != xs[j]
      invariant |xs| + |rest| == |s|
      decreases |rest|
    {
      var c :| c in rest;
      xs := xs + [c];
      rest := rest - {c};
    }
  }

  /** `get_citations_from_source_documents`: the citations, without proof, of
      all passages of all steps, deduplicated and listed in set order. */
  method GetCitationsFromSourceDocuments(result: AgentResult, stripDate: string -> string)
    returns (r: Result<seq<Citation.Citation>, Citation.KeyError>)
    ensures var flat := FlattenSourceDocuments(result.steps);
            match flat
            case Err(e) => r == Err(e)
            case Ok(ps) =>
              var k := Citation.ValidPrefix(ps);
              if k < |ps| then r == Err(Citation.MissingKey(ps[k]))
              else r.Ok? && Citation.Enumerates(r.value, Citation.Cited(ps, false, stripDate))
    ensures r.Ok? ==> forall i, j :: 0 <= i < j < |r.value| ==>
              (r.value[i].source, r.value[i].page) != (r.value[j].source, r.value[j].page)
  {
    var flat := FlattenSourceDocuments(result.steps);
    if flat.Err? {
      return Err(flat.error);
    }
    var citations := new Citation.Citations({}, false);
    var err := citations.GetUniqueCitations(flat.value, stripDate);
    if err.Some? {
      return Err(err.value);
    }
    assert flat.value[..|flat.value|] == flat.value;
    var list := ListOf(citations.citations);
    Citation.UniqueWithoutProof(flat.value, stripDate);
    return Ok(list);
  }

  // ---------------------------------------------------------------------
  // The chatbot

  /** One exported exchange: `(prompt, answer, citations)`. */
  datatype Turn = Turn(prompt: string, answer: string, citations: seq<Citation.Citation>)

  /** The dict `send_prompt` returns. */
  datatype Response = Response(answer: string, citations: seq<Citation.Citation>, chatHistory: seq<Turn>)

  /** Why `send_prompt` raised: the agent failed, or its result could not be
      turned into citations. */
  datatype PromptError = AgentError(reason: string) | CitationError(missing: Citation.KeyError)

  class Chatbot {
    const tools: seq<Tool>
    /** The routing agent, as a function of the prompt and the internal history. */
    const agent: (string, seq<seq<string>>) -> AgentOutcome
    const stripDate: string -> string
    var chatHistoryInternal: seq<seq<string>>
    var chatHistoryExport: seq<Turn>

    /** The naming part of `__init__`: the tools of the uploaded documents and
        two empty histories. */
    constructor (fileNames: seq<string>, agent: (string, seq<seq<string>>) -> AgentOutcome,
                 stripDate: string -> string)
      ensures tools == CreateTools(fileNames, stripDate)
      ensures this.agent == agent && this.stripDate == stripDate
      ensures chatHistoryInternal == [] && chatHistoryExport == []
    {
      tools := CreateTools(fileNames, stripDate);
      this.agent := agent;
      this.stripDate := stripDate;
      chatHistoryInternal := [];
      chatHistoryExport := [];
    }

    /** `add_to_chat_history`: one entry appended to each history. */
    method AddToChatHistory(agentHistory: seq<string>, prompt: string, answer: string,
                            citations: seq<Citation.Citation>)
      modifies this
      ensures chatHistoryInternal == old(chatHistoryInternal) + [agentHistory]
      ensures chatHistoryExport == old(chatHistoryExport) + [Turn(prompt, answer, citations)]
    {
      chatHistoryInternal := chatHistoryInternal + [agentHistory];
      chatHistoryExport := chatHistoryExport + [Turn(prompt, answer, citations)];
    }

    /** `send_prompt`: call the agent, harvest the citations, then record the
        exchange. Both histories change only when every step succeeded. */
    method SendPrompt(prompt: string) returns (r: Result<Response, PromptError>)
      modifies this
      ensures r.Err? ==> chatHistoryInternal == old(chatHistoryInternal)
                         && chatHistoryExport == old(chatHistoryExport)
      ensures agent(prompt, old(chatHistoryInternal)).AgentFailed? ==>
                r == Err(AgentError(agent(prompt, old(chatHistoryInternal)).reason))
      ensures agent(prompt, old(chatHistoryInternal)).AgentReturned? ==>
                var flat := FlattenSourceDocuments(agent(prompt, old(chatHistoryInternal)).result.steps);
                && (r.Ok? <==> flat.Ok? && Citation.AllWellFormed(flat.value))
                && (flat.Err? ==> r == Err(CitationError(flat.error)))
                && (flat.Ok? && !Citation.AllWellFormed(flat.value) ==>
                      r == Err(CitationError(Citation.MissingKey(flat.value[Citation.ValidPrefix(flat.value)]))))
      ensures r.Ok? ==>
                var result := agent(prompt, old(chatHistoryInternal)).result;
                && agent(prompt, old(chatHistoryInternal)).AgentReturned?
                && r.value.answer == result.output
                && chatHistoryInternal == old(chatHistoryInternal) + [result.agentHistory]
                && chatHistoryExport == old(chatHistoryExport) + [Turn(prompt, result.output, r.value.citations)]
                && r.value.chatHistory == chatHistoryExport
                && FlattenSourceDocuments(result.steps).Ok?
                && Citation.AllWellFormed(FlattenSourceDocuments(result.steps).value)
                && Citation.Enumerates(r.value.citations,
                     Citation.Cited(FlattenSourceDocuments(result.steps).value, false, stripDate))
    {
      var outcome := agent(prompt, chatHistoryInternal);
      if outcome.AgentFailed? {
        return Err(AgentError(outcome.reason));
      }
      var result := outcome.result;
      var citations := GetCitationsFromSourceDocuments(result, stripDate);
      var flat := FlattenSourceDocuments(result.steps);
      if flat.Ok? {
        var k := Citation.ValidPrefix(flat.value);
        assert flat.value[..k] == flat.value ==> k == |flat.value|;
        assert k == |flat.value| ==> flat.value[..k] == flat.value;
      }
      if citations.Err? {
        return Err(CitationError(citations.error));
      }
      AddToChatHistory(result.agentHistory, prompt, result.output, citations.value);
      return Ok(Response(result.output, citations.value, chatHistoryExport));
    }
  }
}
