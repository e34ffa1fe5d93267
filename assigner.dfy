// assign_artist (server.py:195-277): derive the required skills from the
// request, keep the artists with spare capacity whose skills cover them,
// and pick the eligible artist with the lowest load, the first one on ties.

module ArtistAssigner {
  import opened Wrappers
  import opened Values
  import opened Tables

  /** An entry of `eligible_artists` (server.py:249-254). */
  datatype Candidate = Candidate(id: string, name: string, load: int, capacity: int)

  datatype Reason =
    | RequestNotFound(requestId: string)
    | NoEligible(requiredSkills: seq<Value>)
    | Chosen(name: string, requiredSkills: seq<Value>, load: int, capacity: int)

  /** The returned `{artist_id, artist_name, reason}`. */
  datatype Assignment = Assignment(artistId: Option<string>, artistName: Option<string>, reason: Reason)

  /** The `AttributeError` of calling `.lower()` on a value that is not a
      string; the source does not catch it. */
  datatype Fault = LowerOnNonString(value: Value)

  /** The number of skills the first `k` of style, engine, topology add. */
  function SkillsBefore(request: Record, k: nat): nat
    requires k <= 3
  {
    (if k > 0 && "style" in request then 1 else 0) +
    (if k > 1 && "engine" in request then 1 else 0) +
    (if k > 2 && "topology" in request then 1 else 0)
  }

  /** `required_skills` (server.py:224-232): the style, the engine lowered
      and the topology, in this order and each only if present. Lowering an
      engine that is not a string raises. */
  function RequiredSkills(request: Record): (r: Result<seq<Value>, Fault>)
    ensures r.Failure? <==> "engine" in request && !request["engine"].VStr?
    ensures r.Failure? ==> r.error == LowerOnNonString(request["engine"])
    ensures r.Success? ==>
      |r.value| == SkillsBefore(request, 3) &&
      ("style" in request ==> r.value[0] == request["style"]) &&
      ("engine" in request ==>
         r.value[SkillsBefore(request, 1)] == VStr(Lower(request["engine"].s))) &&
      ("topology" in request ==> r.value[|r.value| - 1] == request["topology"])
  {
    var style := if "style" in request then [request["style"]] else [];
    if "engine" in request && !request["engine"].VStr? then Failure(LowerOnNonString(request["engine"]))
    else
      var engine := if "engine" in request then [VStr(Lower(request["engine"].s))] else [];
      var topology := if "topology" in request then [request["topology"]] else [];
      Success(style + engine + topology)
  }

  /** `set(skill.lower() for skill in required_skills)`, or the first value
      that is not a string. */
  function LowerAll(required: seq<Value>): (r: Result<set<string>, Fault>)
    ensures r.Success? <==> forall i :: 0 <= i < |required| ==> required[i].VStr?
    ensures r.Success? ==> forall x :: x in r.value <==>
      exists i :: 0 <= i < |required| && Lower(required[i].s) == x
    ensures r.Failure? ==>
      exists i :: 0 <= i < |required| && r.error == LowerOnNonString(required[i]) &&
        !required[i].VStr? && forall j :: 0 <= j < i ==> required[j].VStr?
  {
    if |required| == 0 then Success({})
    else if !required[0].VStr? then Failure(LowerOnNonString(required[0]))
    else
      match LowerAll(required[1..])
      case Failure(f) =>
        assert forall j :: 1 <= j < |required| ==> required[j] == required[1..][j - 1];
        Failure(f)
      case Success(rest) =>
        assert forall j :: 1 <= j < |required| ==> required[j] == required[1..][j - 1];
        Success({Lower(required[0].s)} + rest)
  }

  /** The lowered required skills an artist must cover; when lowering
      raises, no artist with capacity is ever compared, so the set is moot. */
  function Need(required: seq<Value>): set<string> {
    if LowerAll(required).Success? then LowerAll(required).value else {}
  }

  /** The artist's skills, lowered (server.py:244). */
  function SkillSet(a: Artist): set<string> {
    set s | s in a.skills :: Lower(s)
  }

  predicate HasCapacity(a: Artist) {
    a.activeLoad < a.capacity
  }

  /** Spare capacity, and every lowered required skill among the artist's
      lowered skills. */
  predicate Eligible(a: Artist, need: set<string>) {
    HasCapacity(a) && need <= SkillSet(a)
  }

  function ToCandidate(a: Artist): Candidate {
    Candidate(a.id, a.name, a.activeLoad, a.capacity)
  }

  /** The eligible artists, in pool order. */
  function Candidates(artists: seq<Artist>, need: set<string>): seq<Candidate> {
    if |artists| == 0 then []
    else
      var n := |artists| - 1;
      Candidates(artists[..n], need) + (if Eligible(artists[n], need) then [ToCandidate(artists[n])] else [])
  }

  /** `min(eligible_artists, key=lambda a: a["load"])` (server.py:267): the
      index of the lowest load, the first one among equals, as Python's
      `min` keeps the earliest of equal keys. */
  function LeastLoaded(cands: seq<Candidate>): (k: nat)
    requires |cands| > 0
    ensures k < |cands|
    ensures forall j :: 0 <= j < |cands| ==> cands[k].load <= cands[j].load
    ensures forall j :: 0 <= j < k ==> cands[j].load > cands[k].load
  {
    if |cands| == 1 then 0
    else
      var n := |cands| - 1;
      var k := LeastLoaded(cands[..n]);
      assert forall j :: 0 <= j < n ==> cands[..n][j] == cands[j];
      if cands[n].load < cands[k].load then n else k
  }

  /** The assignment for a known request with the given required skills. */
  function AssignFor(artists: seq<Artist>, required: seq<Value>): Result<Assignment, Fault> {
    var lowered := LowerAll(required);
    if lowered.Failure? && exists i :: 0 <= i < |artists| && HasCapacity(artists[i]) then
      Failure(lowered.error)
    else
      var cands := Candidates(artists, Need(required));
      if |cands| == 0 then Success(Assignment(None, None, NoEligible(required)))
      else
        var c := cands[LeastLoaded(cands)];
        Success(Assignment(Some(c.id), Some(c.name), Chosen(c.name, required, c.load, c.capacity)))
  }

  /** assign_artist as a function of the tables. */
  function Assign(requests: map<string, Record>, artists: seq<Artist>, requestId: string): Result<Assignment, Fault> {
    if requestId !in requests then Success(Assignment(None, None, RequestNotFound(requestId)))
    else
      match RequiredSkills(requests[requestId])
      case Failure(f) => Failure(f)
      case Success(required) => AssignFor(artists, required)
  }

  /** assign_artist: one pass over the pool collecting the eligible artists,
      then the least loaded of them. The pool is only read. */
  method AssignArtist(requests: map<string, Record>, artists: seq<Artist>, requestId: string)
    returns (r: Result<Assignment, Fault>)
    ensures r == Assign(requests, artists, requestId)
  {
    if requestId !in requests {
      return Success(Assignment(None, None, RequestNotFound(requestId)));
    }
    var request := requests[requestId];
    var required: seq<Value> := [];
    if "style" in request {
      required := required + [request["style"]];
    }
    if "engine" in request {
      var engine := request["engine"];
      if !engine.VStr? {
        return Failure(LowerOnNonString(engine));
      }
      required := required + [VStr(Lower(engine.s))];
    }
    if "topology" in request {
      required := required + [request["topology"]];
    }
    assert required == RequiredSkills(request).value;

    var lowered := LowerAll(required);
    var need := Need(required);
    var eligible: seq<Candidate> := [];
    for i := 0 to |artists|
      invariant eligible == Candidates(artists[..i], need)
      invariant lowered.Failure? ==> forall j :: 0 <= j < i ==> !HasCapacity(artists[j])
    {
      assert artists[..i + 1][..i] == artists[..i];
      var artist := artists[i];
      if artist.activeLoad < artist.capacity {
        if lowered.Failure? {
          return Failure(lowered.error);
        }
        if need <= SkillSet(artist) {
          eligible := eligible + [Candidate(artist.id, artist.name, artist.activeLoad, artist.capacity)];
        }
      }
    }
    assert artists[..|artists|] == artists;

    if |eligible| == 0 {
      return Success(Assignment(None, None, NoEligible(required)));
    }
    var best := eligible[LeastLoaded(eligible)];
    r := Success(Assignment(Some(best.id), Some(best.name), Chosen(best.name, required, best.load, best.capacity)));
  }

  /** Each candidate comes from an eligible artist of the pool, and the
      candidates before it are exactly those of the artists before that one. */
  lemma {:induction false} CandidateOrigin(artists: seq<Artist>, need: set<string>, k: nat)
    requires k < |Candidates(artists, need)|
    ensures exists i ::
      0 <= i < |artists| && Eligible(artists[i], need) &&
      Candidates(artists, need)[k] == ToCandidate(artists[i]) &&
      Candidates(artists[..i], need) == Candidates(artists, need)[..k]
  {
    var n := |artists| - 1;
    var init := artists[..n];
    var c0 := Candidates(init, need);
    var c := Candidates(artists, need);
    if k < |c0| {
      CandidateOrigin(init, need, k);
      var i :| 0 <= i < |init| && Eligible(init[i], need) && c0[k] == ToCandidate(init[i]) &&
        Candidates(init[..i], need) == c0[..k];
      assert init[..i] == artists[..i];
      assert c[..|c0|] == c0;
      assert c[..k] == c0[..k];
      assert artists[i] == init[i];
    } else {
      assert Eligible(artists[n], need) && k == |c0|;
      assert c[..k] == c0;
    }
  }

  /** Every eligible artist of the pool is among the candidates. */
  lemma {:induction false} CandidatesComplete(artists: seq<Artist>, need: set<string>, i: nat)
    requires i < |artists| && Eligible(artists[i], need)
    ensures ToCandidate(artists[i]) in Candidates(artists, need)
  {
    var n := |artists| - 1;
    if i < n {
      var init := artists[..n];
      assert init[i] == artists[i];
      CandidatesComplete(init, need, i);
    }
  }

  /** The artist an assignment picks: eligible, of least load among the
      eligible, and the first eligible artist with that load. */
  predicate IsFirstLeastLoaded(artists: seq<Artist>, need: set<string>, i: nat) {
    i < |artists| && Eligible(artists[i], need) &&
    (forall j :: 0 <= j < |artists| && Eligible(artists[j], need) ==>
       artists[i].activeLoad <= artists[j].activeLoad) &&
    (forall j :: 0 <= j < i && Eligible(artists[j], need) ==>
       artists[j].activeLoad > artists[i].activeLoad)
  }

  /** The chosen candidate is the first least-loaded eligible artist. */
  lemma SelectionIsFirstLeastLoaded(artists: seq<Artist>, need: set<string>)
    requires |Candidates(artists, need)| > 0
    ensures exists i: nat ::
      IsFirstLeastLoaded(artists, need, i) &&
      Candidates(artists, need)[LeastLoaded(Candidates(artists, need))] == ToCandidate(artists[i])
  {
    var c := Candidates(artists, need);
    var k := LeastLoaded(c);
    CandidateOrigin(artists, need, k);
    var i :| 0 <= i < |artists| && Eligible(artists[i], need) &&
      c[k] == ToCandidate(artists[i]) && Candidates(artists[..i], need) == c[..k];
    forall j | 0 <= j < |artists| && Eligible(artists[j], need)
      ensures artists[i].activeLoad <= artists[j].activeLoad
    {
      CandidatesComplete(artists, need, j);
    }
    forall j | 0 <= j < i && Eligible(artists[j], need)
      ensures artists[j].activeLoad > artists[i].activeLoad
    {
      assert artists[..i][j] == artists[j];
      CandidatesComplete(artists[..i], need, j);
      var l :| 0 <= l < |c[..k]| && c[..k][l] == ToCandidate(artists[j]);
      assert c[l] == ToCandidate(artists[j]);
    }
    assert IsFirstLeastLoaded(artists, need, i);
  }

  /** No candidate exactly when no artist of the pool is eligible. */
  lemma {:induction false} NoCandidatesIffNoneEligible(artists: seq<Artist>, need: set<string>)
    ensures |Candidates(artists, need)| == 0 <==>
      forall i :: 0 <= i < |artists| ==> !Eligible(artists[i], need)
  {
    if |Candidates(artists, need)| > 0 {
      CandidateOrigin(artists, need, 0);
    }
    forall i | 0 <= i < |artists| && Eligible(artists[i], need)
      ensures |Candidates(artists, need)| > 0
    {
      CandidatesComplete(artists, need, i);
    }
  }

  /** An assigned artist has spare capacity, covers the required skills
      (compared lowered), has the least load among the eligible artists,
      and no earlier eligible artist has that load; the reason gives its
      name, the required skills, its load and its capacity. */
  lemma AssignedArtistIsFirstLeastLoaded(requests: map<string, Record>, artists: seq<Artist>,
                                         requestId: string)
    requires Assign(requests, artists, requestId).Success?
    requires Assign(requests, artists, requestId).value.artistId.Some?
    ensures requestId in requests && RequiredSkills(requests[requestId]).Success? &&
      LowerAll(RequiredSkills(requests[requestId]).value).Success?
    ensures var need := LowerAll(RequiredSkills(requests[requestId]).value).value;
      var a := Assign(requests, artists, requestId).value;
      exists i: nat :: IsFirstLeastLoaded(artists, need, i) &&
        artists[i].activeLoad < artists[i].capacity &&
        need <= SkillSet(artists[i]) &&
        a.artistId == Some(artists[i].id) && a.artistName == Some(artists[i].name) &&
        a.reason == Chosen(artists[i].name, RequiredSkills(requests[requestId]).value,
                           artists[i].activeLoad, artists[i].capacity)
  {
    var required := RequiredSkills(requests[requestId]).value;
    var lowered := LowerAll(required);
    if lowered.Failure? {
      var need: set<string> := {};
      NoCandidatesIffNoneEligible(artists, need);
      assert false;
    }
    SelectionIsFirstLeastLoaded(artists, lowered.value);
  }

  /** No artist is assigned exactly when the request is unknown or no artist
      of the pool is eligible; the reason then says which. */
  lemma UnassignedIffNoneEligible(requests: map<string, Record>, artists: seq<Artist>, requestId: string)
    requires Assign(requests, artists, requestId).Success?
    ensures requestId !in requests ==>
      Assign(requests, artists, requestId).value == Assignment(None, None, RequestNotFound(requestId))
    ensures requestId in requests ==>
      RequiredSkills(requests[requestId]).Success? &&
      var required := RequiredSkills(requests[requestId]).value;
      var need := Need(required);
      var a := Assign(requests, artists, requestId).value;
      (a.artistId.None? <==> forall i :: 0 <= i < |artists| ==> !Eligible(artists[i], need)) &&
      (a.artistId.None? ==> a == Assignment(None, None, NoEligible(required))) &&
      (a.artistId.Some? <==> a.artistName.Some?)
  {
    if requestId in requests {
      var required := RequiredSkills(requests[requestId]).value;
      var lowered := LowerAll(required);
      NoCandidatesIffNoneEligible(artists, Need(required));
    }
  }

  /** When lowering raises: an engine that is not a string always does; a
      style or topology that is not a string does once the scan meets an
      artist with spare capacity. */
  lemma FaultsExactly(requests: map<string, Record>, artists: seq<Artist>, requestId: string)
    requires requestId in requests
    ensures var request := requests[requestId];
      Assign(requests, artists, requestId).Failure? <==>
        ("engine" in request && !request["engine"].VStr?) ||
        (RequiredSkills(request).Success? &&
         (exists k :: 0 <= k < |RequiredSkills(request).value| && !RequiredSkills(request).value[k].VStr?) &&
         (exists i :: 0 <= i < |artists| && HasCapacity(artists[i])))
  {
  }

  /** Only style, engine and topology are required skills: two requests that
      agree on those three fields get the same assignment. */
  lemma OnlyStyleEngineTopologyMatter(requests1: map<string, Record>, requests2: map<string, Record>,
                                      artists: seq<Artist>, requestId: string)
    requires requestId in requests1 && requestId in requests2
    requires forall key :: key in {"style", "engine", "topology"} ==>
      (key in requests1[requestId] <==> key in requests2[requestId]) &&
      (key in requests1[requestId] ==> requests1[requestId][key] == requests2[requestId][key])
    ensures Assign(requests1, artists, requestId) == Assign(requests2, artists, requestId)
  {
    var r1, r2 := requests1[requestId], requests2[requestId];
    assert "style" in {"style", "engine", "topology"};
    assert "engine" in {"style", "engine", "topology"};
    assert "topology" in {"style", "engine", "topology"};
    assert RequiredSkills(r1) == RequiredSkills(r2);
  }

  /** The engine is lowered when the required skills are built and again
      when they are compared; the skill compared is still the engine name
      lowered once. */
  lemma EngineComparedLoweredOnce(request: Record)
    requires "engine" in request && request["engine"].VStr?
    requires LowerAll(RequiredSkills(request).value).Success?
    ensures Lower(request["engine"].s) in Need(RequiredSkills(request).value)
  {
    var required := RequiredSkills(request).value;
    var k := SkillsBefore(request, 1);
    assert required[k] == VStr(Lower(request["engine"].s));
    LowerIdempotent(request["engine"].s);
    assert Lower(required[k].s) == Lower(request["engine"].s);
  }
}
