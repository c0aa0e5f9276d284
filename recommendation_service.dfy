/**
 * The rule-based topic recommender, after `backend/app/services/recommendation_service.py`:
 * a fixed table of follow-up topics, chosen by an explicit topic or by the models the user
 * viewed last, and fixed groups of related subjects.
 */
module RecommendationService {
  import opened Wrappers
  import opened Seqs
  import opened Text
  import opened ActivityService

  /** `RECOMMENDATIONS`: every topic's follow-up topics. */
  const Recommendations: map<string, seq<string>> := map[
    "heart" := ["arteries", "veins", "circulatory system", "blood flow"],
    "dna" := ["rna", "protein synthesis", "genetics", "chromosomes"],
    "cell" := ["mitochondria", "nucleus", "cell membrane", "organelles"],
    "atom" := ["electron", "proton", "neutron", "periodic table"],
    "lever" := ["pulley", "inclined plane", "simple machines", "mechanical advantage"],
    "pendulum" := ["oscillation", "simple harmonic motion", "energy conservation", "waves"],
    "ac circuit" := ["dc circuit", "capacitor", "inductor", "ohm's law"]]

  const DefaultRecommendations: seq<string> := ["heart", "dna", "cell", "atom"]
  const ViewedModel := "viewed_model"
  /** How many of the user's latest model views are scanned. */
  const RecentWindow := 5

  const BiologyTopics: seq<string> := ["heart", "dna", "cell"]
  const PhysicsTopics: seq<string> := ["atom", "lever", "pendulum", "ac circuit"]

  /** Every topic's recommendation list holds exactly four topics. */
  lemma EveryRecommendationListHasFour()
    ensures forall k :: k in Recommendations ==> |Recommendations[k]| == 4
  {
  }

  /** `model.replace(".glb", "").replace("_", " ")`. */
  function TopicOf(model: string): (t: string)
    ensures '_' !in t
  {
    var stripped := ReplaceAll(model, ".glb", "");
    ReplaceCharRemovesIt(stripped, '_', " ");
    ReplaceAll(stripped, "_", " ")
  }

  /** A view of "heart.glb" is about the topic "heart". */
  lemma TopicOfHeart()
    ensures TopicOf("heart.glb") == "heart"
  {
    var glb := ".glb";
    ReplaceAllAtFront("", glb, "");
    assert "heart.glb" == "heart" + glb;
    ReplaceAllSkips("heart", glb, glb, "");
    assert ReplaceAll("heart.glb", glb, "") == "heart";
    ReplaceAllSkips("heart", "", "_", " ");
    assert "heart" + "" == "heart";
  }

  /** A view of "ac_circuit.glb" is about the topic "ac circuit". */
  lemma TopicOfAcCircuit()
    ensures TopicOf("ac_circuit.glb") == "ac circuit"
  {
    var glb := ".glb";
    ReplaceAllAtFront("", glb, "");
    assert "ac_circuit.glb" == "ac_circuit" + glb;
    ReplaceAllSkips("ac_circuit", glb, glb, "");
    assert ReplaceAll("ac_circuit.glb", glb, "") == "ac_circuit";
    UnderscoreBecomesSpace();
  }

  lemma UnderscoreBecomesSpace()
    ensures ReplaceAll("ac_circuit", "_", " ") == "ac circuit"
  {
    assert "ac_circuit" == "ac" + "_" + "circuit";
    assert "ac circuit" == "ac" + " " + "circuit";
    OneSeparatorReplaced("ac", "circuit", '_', " ");
  }

  /** One separator between two runs without it is replaced, and nothing else. */
  lemma OneSeparatorReplaced(a: string, b: string, c: char, rep: string)
    requires c !in a && c !in b
    ensures ReplaceAll(a + [c] + b, [c], rep) == a + rep + b
  {
    ReplaceAllSkips(b, [], [c], rep);
    assert b + [] == b;
    ReplaceAllAtFront(b, [c], rep);
    ReplaceAllSkips(a, [c] + b, [c], rep);
    assert a + [c] + b == a + ([c] + b);
  }

  /** `details.get("model", "")`. */
  function ModelOf(e: Entry): string {
    if "model" in e.details then e.details["model"] else ""
  }

  /** The topics of the views in `views`, in order, skipping views without a model. */
  function TopicsOf(views: seq<Entry>): (r: seq<string>)
    ensures |r| <= |views|
  {
    if views == [] then []
    else
      var init := views[..|views| - 1];
      var e := views[|views| - 1];
      var r := TopicsOf(init);
      if ModelOf(e) != "" then r + [TopicOf(ModelOf(e))] else r
  }

  /** Every topic comes from a view that names a model. */
  lemma {:induction false} TopicsComeFromViews(views: seq<Entry>, t: string)
    requires t in TopicsOf(views)
    ensures exists e :: e in views && ModelOf(e) != "" && t == TopicOf(ModelOf(e))
  {
    var init, e := views[..|views| - 1], views[|views| - 1];
    if ModelOf(e) != "" && t == TopicOf(ModelOf(e)) {
      assert e in views;
    } else {
      TopicsComeFromViews(init, t);
      var e' :| e' in init && ModelOf(e') != "" && t == TopicOf(ModelOf(e'));
      assert e' in views;
    }
  }

  /** One more view of the window adds its topic at the end, when it names a model. */
  lemma TopicsOfPrefix(views: seq<Entry>, i: nat)
    requires i < |views|
    ensures TopicsOf(views[..i + 1])
      == TopicsOf(views[..i]) + (if ModelOf(views[i]) != "" then [TopicOf(ModelOf(views[i]))] else [])
  {
    assert views[..i + 1][..i] == views[..i];
  }

  /** The user's model views, in log order. */
  function ModelViews(logs: seq<Entry>, userId: string): (r: seq<Entry>)
    ensures forall e :: e in r <==> e in logs && e.userId == Some(userId) && e.kind == Some(ViewedModel)
  {
    Filter(logs, OfUserAndType(userId, ViewedModel))
  }

  /** `_get_recent_topics`: the topics of the user's last five model views, oldest first. */
  method RecentTopics(logs: seq<Entry>, userId: string) returns (topics: seq<string>)
    ensures topics == TopicsOf(Last(ModelViews(logs, userId), RecentWindow))
    ensures |topics| <= RecentWindow
  {
    var views := ModelViews(logs, userId);
    var window := Last(views, RecentWindow);
    topics := [];
    for i := 0 to |window|
      invariant topics == TopicsOf(window[..i])
    {
      TopicsOfPrefix(window, i);
      var model := ModelOf(window[i]);
      if model != "" {
        topics := topics + [TopicOf(model)];
      }
    }
    assert window[..|window|] == window;
  }

  /** `based_on` is given, and its lower-case form is a known topic. */
  predicate KnownBasis(basedOn: Option<string>) {
    basedOn.Some? && basedOn.value != "" && Lower(basedOn.value) in Recommendations
  }

  /**
   * The choice `get_recommendations` makes AS WRITTEN: an explicit known topic first, then the
   * FIRST of the recent topics, which is the oldest of the window, then the defaults.
   */
  function ChooseAsWritten(basedOn: Option<string>, recentTopics: seq<string>): (r: seq<string>)
    ensures KnownBasis(basedOn) ==> r == Recommendations[Lower(basedOn.value)]
    ensures !KnownBasis(basedOn) && recentTopics != [] && Lower(recentTopics[0]) in Recommendations ==>
      r == Recommendations[Lower(recentTopics[0])]
    ensures !KnownBasis(basedOn) && (recentTopics == [] || Lower(recentTopics[0]) !in Recommendations) ==>
      r == DefaultRecommendations
    ensures |r| == 4
  {
    if KnownBasis(basedOn) then Recommendations[Lower(basedOn.value)]
    else if recentTopics != [] && Lower(recentTopics[0]) in Recommendations then Recommendations[Lower(recentTopics[0])]
    else DefaultRecommendations
  }

  /**
   * The choice as its comment describes it: an explicit known topic first, then the MOST
   * RECENT topic viewed, then the defaults.
   */
  function Choose(basedOn: Option<string>, recentTopics: seq<string>): (r: seq<string>)
    ensures KnownBasis(basedOn) ==> r == Recommendations[Lower(basedOn.value)]
    ensures !KnownBasis(basedOn) && recentTopics != [] && Lower(recentTopics[|recentTopics| - 1]) in Recommendations ==>
      r == Recommendations[Lower(recentTopics[|recentTopics| - 1])]
    ensures !KnownBasis(basedOn) && (recentTopics == [] || Lower(recentTopics[|recentTopics| - 1]) !in Recommendations) ==>
      r == DefaultRecommendations
    ensures |r| == 4
  {
    var last := if recentTopics == [] then "" else Lower(recentTopics[|recentTopics| - 1]);
    if KnownBasis(basedOn) then Recommendations[Lower(basedOn.value)]
    else if recentTopics != [] && last in Recommendations then Recommendations[last]
    else DefaultRecommendations
  }

  /** With views of the heart and then of DNA, the code as written recommends after the heart. */
  lemma AsWrittenFollowsOldestView()
    ensures ChooseAsWritten(None, ["heart", "dna"]) == Recommendations["heart"]
    ensures Choose(None, ["heart", "dna"]) == Recommendations["dna"]
    ensures ChooseAsWritten(None, ["heart", "dna"]) != Choose(None, ["heart", "dna"])
  {
    assert Lower("heart") == "heart";
    assert Lower("dna") == "dna";
    assert Recommendations["heart"][0] != Recommendations["dna"][0];
  }

  /** The two choices agree whenever at most one topic was viewed recently. */
  lemma ChoicesAgreeOnOneTopic(basedOn: Option<string>, recentTopics: seq<string>)
    requires |recentTopics| <= 1
    ensures ChooseAsWritten(basedOn, recentTopics) == Choose(basedOn, recentTopics)
  {
  }

  /** `get_recommendations`, choosing by the most recent view. */
  method GetRecommendations(logs: seq<Entry>, basedOn: Option<string>, userId: string) returns (r: seq<string>)
    ensures r == Choose(basedOn, TopicsOf(Last(ModelViews(logs, userId), RecentWindow)))
    ensures |r| > 0
  {
    if KnownBasis(basedOn) {
      return Recommendations[Lower(basedOn.value)];
    }
    var recentTopics := RecentTopics(logs, userId);
    if recentTopics != [] {
      var lastTopic := Lower(recentTopics[|recentTopics| - 1]);
      if lastTopic in Recommendations {
        return Recommendations[lastTopic];
      }
    }
    return DefaultRecommendations;
  }

  /** `[t for t in group if t != subject]`. */
  function Without(group: seq<string>, subject: string): (r: seq<string>)
    ensures forall t :: t in r <==> t in group && t != subject
  {
    Filter(group, (t: string) => t != subject)
  }

  /** `get_related_subjects`: the other members of the subject's group, or none. */
  function RelatedSubjects(subject: string): (r: seq<string>)
    ensures subject in BiologyTopics ==> r == Without(BiologyTopics, subject)
    ensures subject !in BiologyTopics && subject in PhysicsTopics ==> r == Without(PhysicsTopics, subject)
    ensures subject !in BiologyTopics && subject !in PhysicsTopics ==> r == []
    ensures subject !in r
  {
    if subject in BiologyTopics then Without(BiologyTopics, subject)
    else if subject in PhysicsTopics then Without(PhysicsTopics, subject)
    else []
  }

  /** A related subject is always in the same group as the subject itself. */
  lemma RelatedShareAGroup(subject: string, t: string)
    requires t in RelatedSubjects(subject)
    ensures (t in BiologyTopics && subject in BiologyTopics) || (t in PhysicsTopics && subject in PhysicsTopics)
  {
  }
}
