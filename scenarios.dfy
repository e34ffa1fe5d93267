// The scenarios of test_server.py, over small tables shaped after what its
// comments say of the data files (which are not part of this model):
// req-001 is an ArcadiaXR stylized hard-surface Unreal job, req-002 a
// priority TitanMfg PBR / Unreal / quad-only job whose preset lacks channel
// "a"; Ada has the stylized skill but is full (2/2), Ben has PBR, Unreal and
// quad-only and is free (0/1). What those comments leave open is chosen
// here: both naming patterns (so TitanMfg's preset lacks only channel "a"),
// the channel values, Ada's id and her "unreal" skill, and req-001 having no
// "topology" field. The validation scenarios pass the empty account id, which
// falls back to the request's account; the tests omit the argument, which
// validate_preset requires.

module Scenarios {
  import opened Wrappers
  import opened Values
  import opened Tables
  import opened PresetValidator
  import opened StepPlanner
  import opened ArtistAssigner
  import opened DecisionRecorder

  const Req001: Record := map["id" := VStr("req-001"), "account" := VStr("ArcadiaXR"),
                              "style" := VStr("stylized_hard_surface"), "engine" := VStr("Unreal")]

  const Req002: Record := map["id" := VStr("req-002"), "account" := VStr("TitanMfg"),
                              "style" := VStr("pbr"), "engine" := VStr("Unreal"),
                              "topology" := VStr("quad_only"), "priority" := VBool(true)]

  const RequestList: seq<Record> := [Req001, Req002]

  const Presets: map<string, Preset> := map[
    "ArcadiaXR" := Preset(Some(VStr("{asset}_{lod}")),
                          Some(map["r" := VStr("ao"), "g" := VStr("roughness"),
                                   "b" := VStr("metallic"), "a" := VStr("opacity")])),
    "TitanMfg" := Preset(Some(VStr("{part}")),
                         Some(map["r" := VStr("ao"), "g" := VStr("roughness"), "b" := VStr("metallic")]))]

  const Rules: seq<Rule> := [
    Rule(map["account" := VStr("ArcadiaXR"), "style" := VStr("stylized_hard_surface")],
         Actions(Some(["style_tweak_review"]), map[])),
    Rule(map["priority" := VBool(true)], Actions(None, map["queue" := VStr("expedite")])),
    Rule(map["engine" := VStr("Unreal")], Actions(Some(["export_unreal_glb"]), map[]))]

  const Ada: Artist := Artist("a-1", "Ada", ["stylized_hard_surface", "unreal"], 2, 2)
  const Ben: Artist := Artist("a-2", "Ben", ["pbr", "Unreal", "quad_only"], 0, 1)
  const Artists: seq<Artist> := [Ada, Ben]

  /** The request table built from the list. */
  lemma RequestTable()
    ensures IndexRequests(RequestList) == Some(map["req-001" := Req001, "req-002" := Req002])
  {
    assert RequestKey(Req001) == Some("req-001") && RequestKey(Req002) == Some("req-002");
    assert RequestList[..1] == [Req001];
    assert RequestList[..1][..0] == [];
    assert IndexBy(RequestList[..1], RequestKey) == map["req-001" := Req001];
  }

  function Requests(): map<string, Record> {
    map["req-001" := Req001, "req-002" := Req002]
  }

  /** test_validate_preset_success, called without an account id. */
  lemma ValidateScenarioSuccess()
    ensures ValidatePreset(Requests(), Presets, "req-001", "") == Validation(true, [])
  {
    assert Requests()["req-001"] == Req001;
    CompletePresetPasses(Requests(), Presets, "req-001", "", Presets["ArcadiaXR"]);
  }

  /** test_validate_preset_missing_channel: the one error names channel "a". */
  lemma ValidateScenarioMissingChannel()
    ensures ValidatePreset(Requests(), Presets, "req-002", "") == Validation(false, [MissingChannel("a")])
  {
    assert Requests()["req-002"] == Req002;
    assert Req002["account"] == VStr("TitanMfg");
    var titan := Presets["TitanMfg"];
    assert PackingKeys(titan) == {"r", "g", "b"};
    MissingTitan();
  }

  lemma MissingTitan()
    ensures MissingChannels({"r", "g", "b"}) == ["a"]
  {
    var s := SortedRequiredChannels;
    assert s[1..] == ["b", "g", "r"] && s[1..][1..] == ["g", "r"] && s[1..][1..][1..] == ["r"];
    assert Missing(["r"], {"r", "g", "b"}) == [];
    assert Missing(["g", "r"], {"r", "g", "b"}) == [];
    assert Missing(["b", "g", "r"], {"r", "g", "b"}) == [];
  }

  /** test_validate_preset_not_found. */
  lemma ValidateScenarioNotFound()
    ensures ValidatePreset(Requests(), Presets, "req-999", "") ==
      Validation(false, [ValidationError.RequestNotFound("req-999")])
  {
    assert "req-999" !in Requests();
  }

  /** test_plan_steps_matches_rules: req-001 matches the style rule and the
      engine rule. */
  lemma PlanScenario001()
    ensures PlannedSteps(Req001, Rules) == ["style_tweak_review", "export_unreal_glb"]
    ensures |Trace(Req001, Rules)| == 2
  {
    assert Matches(Req001, Rules[0].conditions);
    assert !Matches(Req001, Rules[1].conditions) by {
      assert Get(Req001, "priority") == VNull;
    }
    assert Matches(Req001, Rules[2].conditions);
    assert Rules[..2][..1] == Rules[..1];
    assert Rules[..3] == Rules;
    assert Rules[..3][..2] == Rules[..2];
    assert Rules[..1][..0] == [];
    assert PlannedSteps(Req001, Rules[..1]) == ["style_tweak_review"];
    assert PlannedSteps(Req001, Rules[..2]) == ["style_tweak_review"];
    assert |Trace(Req001, Rules[..1])| == 1;
    assert |Trace(Req001, Rules[..2])| == 1;
  }

  /** test_plan_steps_priority_rule: req-002 matches the priority rule, whose
      actions set the expedite queue. */
  lemma PlanScenario002()
    ensures exists k ::
      0 <= k < |Trace(Req002, Rules)| &&
      Trace(Req002, Rules)[k].actions.directives == map["queue" := VStr("expedite")]
  {
    assert Matches(Req002, Rules[1].conditions);
    TraceIsComplete(Req002, Rules, 1);
    TraceIsSound(Req002, Rules);
    var k :| 0 <= k < |Trace(Req002, Rules)| && Trace(Req002, Rules)[k].ruleIndex == 1;
    assert FaithfulEntry(Req002, Rules, Trace(Req002, Rules)[k]);
  }

  const Skills002: seq<Value> := [VStr("pbr"), VStr("unreal"), VStr("quad_only")]
  const Skills001: seq<Value> := [VStr("stylized_hard_surface"), VStr("unreal")]

  /** req-002 needs pbr, unreal (its engine, lowered) and quad_only. */
  lemma RequiredSkills002()
    ensures RequiredSkills(Req002) == Success(Skills002)
  {
    assert "style" in Req002 && "engine" in Req002 && "topology" in Req002;
    assert Req002["style"] == VStr("pbr") && Req002["engine"] == VStr("Unreal");
    assert Req002["topology"] == VStr("quad_only");
    assert Lower("Unreal") == "unreal";
    assert RequiredSkills(Req002).value == Skills002;
  }

  lemma Need002()
    ensures Need(Skills002) == {"pbr", "unreal", "quad_only"}
  {
    assert "pbr" == Lower(Skills002[0].s) && "unreal" == Lower(Skills002[1].s) &&
      "quad_only" == Lower(Skills002[2].s);
  }

  /** req-001 needs stylized_hard_surface and unreal. */
  lemma RequiredSkills001()
    ensures RequiredSkills(Req001) == Success(Skills001)
  {
    assert "style" in Req001 && "engine" in Req001 && "topology" !in Req001;
    assert Req001["style"] == VStr("stylized_hard_surface") && Req001["engine"] == VStr("Unreal");
    assert Lower("Unreal") == "unreal";
    assert RequiredSkills(Req001).value == Skills001;
  }

  lemma Need001()
    ensures Need(Skills001) == {"stylized_hard_surface", "unreal"}
  {
    assert "stylized_hard_surface" == Lower(Skills001[0].s) && "unreal" == Lower(Skills001[1].s);
  }

  /** Of the two artists only Ben can take req-002; nobody can take req-001. */
  lemma Eligibility()
    ensures !Eligible(Ada, {"pbr", "unreal", "quad_only"}) && Eligible(Ben, {"pbr", "unreal", "quad_only"})
    ensures !Eligible(Ada, {"stylized_hard_surface", "unreal"}) && !Eligible(Ben, {"stylized_hard_surface", "unreal"})
  {
    assert Lower("pbr") == "pbr" && Lower("Unreal") == "unreal" && Lower("quad_only") == "quad_only";
    assert SkillSet(Ben) == {"pbr", "unreal", "quad_only"};
  }

  /** test_assign_artist_with_capacity: req-002 goes to Ben. */
  lemma AssignScenario002()
    ensures Assign(Requests(), Artists, "req-002").Success?
    ensures Assign(Requests(), Artists, "req-002").value.artistId == Some("a-2")
    ensures Assign(Requests(), Artists, "req-002").value.artistName == Some("Ben")
    ensures Assign(Requests(), Artists, "req-002").value.reason == Chosen("Ben", Skills002, 0, 1)
  {
    RequiredSkills002();
    Need002();
    Eligibility();
    var need := {"pbr", "unreal", "quad_only"};
    assert LowerAll(Skills002).Success?;
    assert Artists[..1] == [Ada] && Artists[..1][..0] == [];
    assert Candidates(Artists[..1], need) == [];
    assert Candidates(Artists, need) == [ToCandidate(Ben)];
    assert Requests()["req-002"] == Req002;
  }

  /** test_assign_artist_no_capacity: only Ada has the stylized skill, and
      that artist is full, so req-001 gets nobody. */
  lemma AssignScenario001()
    ensures Assign(Requests(), Artists, "req-001") == Success(Assignment(None, None, NoEligible(Skills001)))
  {
    RequiredSkills001();
    Need001();
    Eligibility();
    var need := {"stylized_hard_surface", "unreal"};
    assert LowerAll(Skills001).Success?;
    NoCandidatesIffNoneEligible(Artists, need);
    assert Requests()["req-001"] == Req001;
  }

  /** The payload of test_record_decision_creates_id: a list of steps, an
      artist id and a flag. */
  const Payload: Decision := map["steps" := JArray([JScalar(VStr("test_step"))]),
                                 "artist_id" := JScalar(VStr("a-1")),
                                 "test" := JScalar(VBool(true))]

  /** test_record_decision_creates_id: the stored record keeps the payload,
      list included, and its generated id starts with `dec-req-test-001-`. */
  lemma RecordScenario(stamp: string, now: string)
    ensures var d := NewDecision("req-test-001", Payload, stamp, now);
      d["steps"] == JArray([JScalar(VStr("test_step"))]) &&
      d["request_id"] == JScalar(VStr("req-test-001")) &&
      d["decision_id"].v.VStr? && HasPrefix(d["decision_id"].v.s, "dec-req-test-001-")
  {
    assert "decision_id" !in Payload && "request_id" !in Payload && "steps" in Payload;
    var d := NewDecision("req-test-001", Payload, stamp, now);
    var id := DefaultDecisionId("req-test-001", stamp);
    assert d["decision_id"] == JScalar(VStr(id));
    IdPrefix("req-test-001", stamp);
    assert "dec-" + "req-test-001" + "-" == "dec-req-test-001-";
  }
}
