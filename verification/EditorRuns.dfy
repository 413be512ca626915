/** What the editor saves and what the engine runs, put together. */
module EditorRuns {
  import opened Graphs
  import opened Refs
  import opened Workflow
  import opened Engine
  import EngineInputs
  import Confluence
  import Wiring

  /**
   * Confluence for workflows drawn in the editor: their wiring already names proper ancestors, so
   * every schedule that succeeds gives each step the outputs of sequential evaluation.
   */
  lemma DrawnWorkflowsAreConfluent(w: EngineInputs.World, evs: seq<Event>, s: State, p: nat, order: seq<Id>,
                                   metas: Wiring.Metas, nodes: seq<Wiring.Node>)
    requires EngineInputs.ReadsSettings(w) && EngineInputs.FaithfulRun(w, Init(), evs, s)
    requires p in s.parents && s.parents[p].status == Succeeded && s.parents[p].def.Some?
    requires var def := s.parents[p].def.value;
      && Wiring.PlainKeys(metas) && Wiring.SavedBy(metas, nodes, def)
      && IsTopological(Ids(def.steps), def.edges, order)
    ensures var outs := Confluence.Evaluate(w, p, s.parents[p].def.value, s.parents[p].params, order);
      && (forall x :: x in outs <==> x in Ids(s.parents[p].def.value.steps))
      && forall r: nat :: IsChild(s.rows, r, p) ==>
           s.rows[r].step in outs && s.rows[r].outputs == outs[s.rows[r].step]
  {
    Wiring.WiredRefsAreAncestors(metas, nodes, s.parents[p].def.value);
    Confluence.SucceededRunsAgreeWithEvaluation(w, evs, s, p, order);
  }
}
