/**
 * The agents dashboard page: search over name, contact and city; add,
 * edit and delete on the held list; and the rows of the PDF export.
 */
module AgentsPage {
  import opened Common

  datatype Agent = Agent(id: int, name: string, contact: Option<string>, email: Option<string>, city: Option<string>)

  /** The add/edit form: all four keys are always present, possibly as "". */
  datatype AgentForm = AgentForm(name: string, contact: string, email: string, city: string)

  // ---------------------------------------------------------------- search

  /** The `filterAgents` predicate; the name is tested even when it is empty. */
  predicate MatchesSearch(a: Agent, term: string) {
    || Contains(Lower(a.name), Lower(term))
    || FieldMatches(a.contact, term)
    || FieldMatches(a.city, term)
  }

  /** `filterAgents`: the matching agents in list order. */
  function FilterAgents(agents: seq<Agent>, term: string): (r: seq<Agent>)
    ensures |r| <= |agents|
    ensures forall i :: 0 <= i < |r| ==> r[i] in agents && MatchesSearch(r[i], term)
    ensures forall i :: 0 <= i < |agents| && MatchesSearch(agents[i], term) ==> agents[i] in r
  {
    Filter(agents, (a: Agent) => MatchesSearch(a, term))
  }

  /** An empty search shows every agent, in order. */
  lemma EmptySearchKeepsAll(agents: seq<Agent>)
    ensures FilterAgents(agents, "") == agents
  {
    forall i | 0 <= i < |agents| ensures MatchesSearch(agents[i], "") {
      ContainsEmpty(Lower(agents[i].name));
    }
    FilterAll(agents, (a: Agent) => MatchesSearch(a, ""));
  }

  /** Filtering a concatenated list filters each part and keeps their order. */
  lemma FilterAgentsConcat(a: seq<Agent>, b: seq<Agent>, term: string)
    ensures FilterAgents(a + b, term) == FilterAgents(a, term) + FilterAgents(b, term)
  {
    FilterConcat(a, b, (x: Agent) => MatchesSearch(x, term));
  }

  // ---------------------------------------------------------------- add, edit, delete

  /** The add branch of `handleSubmit`: the form plus a fresh id, appended at the end. */
  function AddAgent(agents: seq<Agent>, form: AgentForm): (r: seq<Agent>)
    ensures |r| == |agents| + 1 && r[..|agents|] == agents
    ensures agents == [] ==> r[0].id == 1
    ensures forall i :: 0 <= i < |agents| ==> agents[i].id < r[|agents|].id
    ensures agents != [] ==> exists i :: 0 <= i < |agents| && r[|agents|].id == agents[i].id + 1
    ensures var a := r[|agents|];
      a.name == form.name && a.contact == Some(form.contact) && a.email == Some(form.email) && a.city == Some(form.city)
  {
    var newId := NextId(IdsOf(agents, (x: Agent) => x.id));
    agents + [Agent(newId, form.name, Some(form.contact), Some(form.email), Some(form.city))]
  }

  /** `{ ...a, ...formData }`: every field but the id comes from the form. */
  function Overlay(a: Agent, form: AgentForm): (r: Agent)
    ensures r.id == a.id
    ensures r.name == form.name && r.contact == Some(form.contact) && r.email == Some(form.email) && r.city == Some(form.city)
  {
    Agent(a.id, form.name, Some(form.contact), Some(form.email), Some(form.city))
  }

  /** The edit branch of `handleSubmit`: with a selected agent, every entry with its id is overlaid. */
  function EditAgent(agents: seq<Agent>, selectedId: Option<int>, form: AgentForm): (r: seq<Agent>)
    ensures |r| == |agents|
    ensures selectedId.None? ==> r == agents
    ensures forall i :: 0 <= i < |r| ==> r[i].id == agents[i].id
    ensures forall i :: 0 <= i < |r| && (selectedId.None? || agents[i].id != selectedId.value) ==> r[i] == agents[i]
    ensures forall i :: 0 <= i < |r| && selectedId.Some? && agents[i].id == selectedId.value ==>
      r[i].name == form.name && r[i].contact == Some(form.contact) && r[i].email == Some(form.email) && r[i].city == Some(form.city)
  {
    if selectedId.None? then agents
    else
      seq(|agents|, i requires 0 <= i < |agents| =>
        if agents[i].id == selectedId.value then Overlay(agents[i], form) else agents[i])
  }

  /** Editing twice with the same form is the same as editing once. */
  lemma EditIdempotent(agents: seq<Agent>, selectedId: Option<int>, form: AgentForm)
    ensures EditAgent(EditAgent(agents, selectedId, form), selectedId, form) == EditAgent(agents, selectedId, form)
  {
  }

  /** `handleDeleteAgent`: every agent with that id goes, the rest stay. */
  function DeleteAgent(agents: seq<Agent>, id: int): (r: seq<Agent>)
    ensures forall i :: 0 <= i < |r| ==> r[i] in agents && r[i].id != id
    ensures forall i :: 0 <= i < |agents| && agents[i].id != id ==> agents[i] in r
    ensures (forall i :: 0 <= i < |agents| ==> agents[i].id != id) ==> r == agents
    ensures (exists i :: 0 <= i < |agents| && agents[i].id == id) ==> |r| < |agents|
  {
    var keep := (a: Agent) => a.id != id;
    if forall i :: 0 <= i < |agents| ==> agents[i].id != id then
      FilterAll(agents, keep);
      Filter(agents, keep)
    else
      FilterShrinks(agents, keep);
      Filter(agents, keep)
  }

  /** Deleting from a concatenation deletes from each part and keeps the parts in order. */
  lemma DeleteAgentConcat(a: seq<Agent>, b: seq<Agent>, id: int)
    ensures DeleteAgent(a + b, id) == DeleteAgent(a, id) + DeleteAgent(b, id)
  {
    FilterConcat(a, b, (x: Agent) => x.id != id);
  }

  /** Deleting a just-added agent gives back the list it was added to. */
  lemma DeleteUndoesAdd(agents: seq<Agent>, form: AgentForm)
    ensures DeleteAgent(AddAgent(agents, form), NextId(IdsOf(agents, (x: Agent) => x.id))) == agents
  {
    var id := NextId(IdsOf(agents, (x: Agent) => x.id));
    var keep := (a: Agent) => a.id != id;
    var added := AddAgent(agents, form);
    assert added == agents + [added[|agents|]];
    FilterConcat(agents, [added[|agents|]], keep);
    FilterAll(agents, keep);
  }

  // ---------------------------------------------------------------- export

  /** A row of the PDF table. */
  datatype ExportRow = ExportRow(serial: int, name: string, contact: string, email: string, city: string)

  /** The row mapping of `handleGeneratePDF`: serial numbers from 1, '-' for each missing optional field. */
  function ExportRows(agents: seq<Agent>): (rows: seq<ExportRow>)
    ensures |rows| == |agents|
    ensures forall i :: 0 <= i < |rows| ==> rows[i].serial == i + 1 && rows[i].name == agents[i].name
    ensures forall i :: 0 <= i < |rows| ==>
      rows[i].contact == OrDash(agents[i].contact) && rows[i].email == OrDash(agents[i].email) && rows[i].city == OrDash(agents[i].city)
    ensures forall i :: 0 <= i < |rows| ==> rows[i].contact != "" && rows[i].email != "" && rows[i].city != ""
  {
    seq(|agents|, i requires 0 <= i < |agents| =>
      var a := agents[i];
      ExportRow(i + 1, a.name, OrDash(a.contact), OrDash(a.email), OrDash(a.city)))
  }
}
