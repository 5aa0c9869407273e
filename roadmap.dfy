/**
 * The roadmap timeline: the four learning phases, the set of expanded
 * phases with its toggle, and the selectors for a phase's status icon and
 * card styles.
 */
module Roadmap {
  import opened Wrappers

  /** `RoadmapPhase`; an absent `completed` reads as false, so it is a plain flag here. */
  datatype Phase = Phase(
    id: int,
    title: string,
    duration: string,
    goals: seq<string>,
    tools: Option<seq<string>>,
    handsOn: Option<seq<string>>,
    completed: bool)

  const AppliedAIRoadmap: seq<Phase> := [
    Phase(1, "Phase 1 — Foundations", "2 months",
      [ "Understand conversational AI basics: intents, entities, slot filling, dialogue management",
        "Learn Rasa concepts: NLU, stories, rules, forms, custom actions",
        "Build simple bots: FAQ bot, form-filling bot",
        "Learn LLM basics: transformer models, common LLM tasks (classification, QA, generation)" ],
      Some([ "Rasa framework", "Hugging Face Transformers (pipeline API)", "Python (intermediate)" ]),
      Some([ "Build a Rasa bot handling multiple intents and APIs",
             "Use Hugging Face pipeline API for pretrained classification and QA models" ]),
      true),
    Phase(2, "Phase 2 — Intermediate orchestration", "ongoing",
      [ "Integrate LLMs into bot workflows, augment or replace Rasa intent classifier",
        "Use LLMs for fallback and smart responses",
        "Learn LangChain or equivalent for RAG pipelines and combining knowledge base + LLM",
        "Build lightweight backend APIs with FastAPI or Flask" ],
      Some([ "LangChain", "FastAPI or Flask" ]),
      Some([ "Upgrade SmartGov bot: external API data, augment Rasa with LLM for complex queries" ]),
      false),
    Phase(3, "Phase 3 — Advanced application engineering", "3-6 months",
      [ "Master LangChain chains, agents, tools for tool-using bots",
        "Integrate memory and RAG systems for knowledge-augmented bots",
        "Learn deployment and scaling: Docker, CI/CD, model and API versioning" ],
      None,
      Some([ "Create assistant answering complex knowledge-base questions with multi-turn conversation" ]),
      false),
    Phase(4, "Phase 4 — Polishing and beyond", "6-∞ so on...",
      [ "Explore voice integration",
        "Learn monitoring and analytics tools (Rasa X, Botpress analytics)",
        "Study bot failure cases and fallback strategies for robust design" ],
      None,
      None,
      false)
  ]

  /** The shipped roadmap: ids 1 to 4 in order, hence distinct, and only the
      first phase completed. */
  lemma RoadmapData()
    ensures |AppliedAIRoadmap| == 4
    ensures forall k :: 0 <= k < 4 ==> AppliedAIRoadmap[k].id == k + 1
    ensures forall j, k :: 0 <= j < k < 4 ==> AppliedAIRoadmap[j].id != AppliedAIRoadmap[k].id
    ensures forall k :: 0 <= k < 4 ==> (AppliedAIRoadmap[k].completed <==> AppliedAIRoadmap[k].id == 1)
  {
  }

  /** `expandedPhases` with `id`'s membership flipped. */
  function Toggled(expanded: set<int>, id: int): (r: set<int>)
    ensures id in r <==> id !in expanded
    ensures forall x :: x != id ==> (x in r <==> x in expanded)
  {
    if id in expanded then expanded - {id} else expanded + {id}
  }

  /** Toggling the same phase twice restores the set. */
  lemma ToggleTwice(expanded: set<int>, id: int)
    ensures Toggled(Toggled(expanded, id), id) == expanded
  {
    var once := Toggled(expanded, id);
    var twice := Toggled(once, id);
    forall x ensures x in twice <==> x in expanded {
      if x == id {
        assert x in twice <==> x !in once;
      } else {
        assert x in twice <==> x in once;
      }
    }
  }

  /** Toggles of two different phases commute: each phase's card is independent. */
  lemma TogglesCommute(expanded: set<int>, a: int, b: int)
    ensures Toggled(Toggled(expanded, a), b) == Toggled(Toggled(expanded, b), a)
  {
    var ab := Toggled(Toggled(expanded, a), b);
    var ba := Toggled(Toggled(expanded, b), a);
    forall x ensures x in ab <==> x in ba {
      var xa := Toggled(expanded, a);
      var xb := Toggled(expanded, b);
      if x == a && x == b {
      } else if x == a {
        assert x in ab <==> x in xa;
        assert x in ba <==> x !in xb;
      } else if x == b {
        assert x in ab <==> x !in xa;
        assert x in ba <==> x in xb;
      } else {
        assert x in ab <==> x in xa;
        assert x in ba <==> x in xb;
      }
    }
  }

  datatype StatusIcon = CheckCircle | Circle

  /** `getStatusIcon` */
  function GetStatusIcon(phase: Phase): (icon: StatusIcon)
    ensures icon == CheckCircle <==> phase.completed
  {
    if phase.completed then CheckCircle else Circle
  }

  datatype PhaseStyles = PhaseStyles(border: string, bg: string, hover: string, dot: string)

  /** `getPhaseStyles`, which reads the expanded set. */
  function GetPhaseStyles(phase: Phase, expanded: set<int>): PhaseStyles {
    var isExpanded := phase.id in expanded;
    if phase.completed then
      PhaseStyles(
        "border-green-500/30",
        if isExpanded then "bg-green-900/10" else "bg-gray-900",
        "hover:bg-green-900/20 hover:border-green-400/50",
        "bg-green-500 ring-4 ring-green-500/20")
    else
      PhaseStyles(
        "border-gray-800",
        "bg-gray-900",
        "hover:bg-gray-800 hover:border-green-500/50",
        "bg-gray-600 ring-2 ring-gray-600/30")
  }

  /** Expansion matters only to a completed phase, and there only to its
      background, which is the highlight exactly when expanded. */
  lemma PhaseStylesByExpansion(phase: Phase, e1: set<int>, e2: set<int>)
    ensures !phase.completed ==> GetPhaseStyles(phase, e1) == GetPhaseStyles(phase, e2)
    ensures var s1, s2 := GetPhaseStyles(phase, e1), GetPhaseStyles(phase, e2);
      s1.border == s2.border && s1.hover == s2.hover && s1.dot == s2.dot
    ensures phase.completed ==> (GetPhaseStyles(phase, e1).bg == "bg-green-900/10" <==> phase.id in e1)
    ensures phase.completed && phase.id !in e1 ==> GetPhaseStyles(phase, e1).bg == "bg-gray-900"
  {
  }

  /** The roadmap component's state: the ids of the expanded phases. */
  class RoadmapSection {
    var expandedPhases: set<int>

    constructor ()
      ensures expandedPhases == {1}
    {
      expandedPhases := {1};
    }

    /** `togglePhase`: copy the set, add or delete the id, store the copy. */
    method TogglePhase(phaseId: int)
      modifies this
      ensures expandedPhases == Toggled(old(expandedPhases), phaseId)
    {
      var newExpanded := expandedPhases;
      if phaseId in newExpanded {
        newExpanded := newExpanded - {phaseId};
      } else {
        newExpanded := newExpanded + {phaseId};
      }
      expandedPhases := newExpanded;
    }
  }
}
