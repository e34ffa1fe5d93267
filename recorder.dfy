// record_decision (server.py:280-334): build a decision record and append
// it to the decisions file, which is read whole, extended and rewritten.

module DecisionRecorder {
  import opened Values

  /** Any JSON value a decision payload can carry: the payload of a decision
      may hold lists (its steps) and objects as well as scalars. */
  datatype Json = JScalar(v: Value) | JArray(items: seq<Json>) | JObject(fields: map<string, Json>)

  /** A stored decision: a JSON object. */
  type Decision = map<string, Json>

  /** What reading the decisions file gives: no file, a file whose content
      is not valid JSON, or the stored list. */
  datatype FileState = Absent | Unparsable | Parsed(decisions: seq<Decision>)

  /** The returned `{decision_id, recorded_at, success}`. */
  datatype Receipt = Receipt(decisionId: Json, recordedAt: Json, success: bool)

  /** The stored decisions as the source loads them (server.py:308-315): a
      missing file, or one that fails to decode as JSON, counts as an empty
      list. */
  function Loaded(state: FileState): seq<Decision> {
    if state.Parsed? then state.decisions else []
  }

  /** `f"dec-{request_id}-{stamp}"`, where `stamp` is the caller's
      `%Y%m%d%H%M%S` rendering of the clock. */
  function DefaultDecisionId(requestId: string, stamp: string): (id: string)
    ensures |id| == |requestId| + |stamp| + 5
    ensures id[..4] == "dec-" && id[4..4 + |requestId|] == requestId
    ensures id[4 + |requestId|] == '-' && id[5 + |requestId|..] == stamp
  {
    "dec-" + requestId + "-" + stamp
  }

  /** The record of server.py:300-305. The payload is spread last, so any of
      its keys, "decision_id" included, overrides the generated fields. */
  function NewDecision(requestId: string, data: Decision, stamp: string, recordedAt: string): (d: Decision)
    ensures d.Keys == data.Keys + {"decision_id", "request_id", "recorded_at"}
    ensures forall k :: k in data ==> d[k] == data[k]
    ensures "decision_id" !in data ==> d["decision_id"] == JScalar(VStr(DefaultDecisionId(requestId, stamp)))
    ensures "request_id" !in data ==> d["request_id"] == JScalar(VStr(requestId))
    ensures "recorded_at" !in data ==> d["recorded_at"] == JScalar(VStr(recordedAt))
  {
    map["decision_id" := JScalar(VStr(DefaultDecisionId(requestId, stamp))),
        "request_id" := JScalar(VStr(requestId)),
        "recorded_at" := JScalar(VStr(recordedAt))] + data
  }

  /** The returned receipt, read back from the record (server.py:324-328). */
  function ReceiptOf(d: Decision): Receipt
    requires "decision_id" in d && "recorded_at" in d
  {
    Receipt(d["decision_id"], d["recorded_at"], true)
  }

  /** The decisions file. Its content is only ever replaced by the loaded
      list with one more record at the end. */
  class DecisionsFile {
    var state: FileState

    constructor (initial: FileState)
      ensures state == initial
    {
      state := initial;
    }

    /** record_decision. The clock readings are parameters: `stamp` for the
        id and `recordedAt` for the timestamp, read separately as the source
        does. */
    method RecordDecision(requestId: string, data: Decision, stamp: string, recordedAt: string)
      returns (receipt: Receipt)
      modifies this
      ensures state == Parsed(old(Loaded(state)) + [NewDecision(requestId, data, stamp, recordedAt)])
      ensures |Loaded(state)| == |old(Loaded(state))| + 1
      ensures Loaded(state)[..|old(Loaded(state))|] == old(Loaded(state))
      ensures receipt == ReceiptOf(NewDecision(requestId, data, stamp, recordedAt))
      ensures receipt.success
      ensures "decision_id" !in data ==>
        receipt.decisionId == JScalar(VStr(DefaultDecisionId(requestId, stamp)))
      ensures "decision_id" in data ==> receipt.decisionId == data["decision_id"]
      ensures "recorded_at" !in data ==> receipt.recordedAt == JScalar(VStr(recordedAt))
      ensures "recorded_at" in data ==> receipt.recordedAt == data["recorded_at"]
    {
      var decision := NewDecision(requestId, data, stamp, recordedAt);
      var decisions := Loaded(state);
      decisions := decisions + [decision];
      state := Parsed(decisions);
      receipt := Receipt(decision["decision_id"], decision["recorded_at"], true);
    }
  }

  /** Two records for the same request, in the same file, one after the
      other: the file grows by two, keeps what it had, and both generated
      ids start with `dec-<request_id>-`. */
  method RecordTwice(file: DecisionsFile, requestId: string, data: Decision,
                     stamp1: string, stamp2: string, now1: string, now2: string)
    returns (first: Receipt, second: Receipt)
    modifies file
    ensures |Loaded(file.state)| == |old(Loaded(file.state))| + 2
    ensures Loaded(file.state)[..|old(Loaded(file.state))|] == old(Loaded(file.state))
    ensures first.success && second.success
    ensures "decision_id" !in data ==>
      first.decisionId.JScalar? && first.decisionId.v.VStr? &&
      second.decisionId.JScalar? && second.decisionId.v.VStr? &&
      HasPrefix(first.decisionId.v.s, "dec-" + requestId + "-") &&
      HasPrefix(second.decisionId.v.s, "dec-" + requestId + "-")
  {
    ghost var before := Loaded(file.state);
    first := file.RecordDecision(requestId, data, stamp1, now1);
    ghost var middle := Loaded(file.state);
    second := file.RecordDecision(requestId, data, stamp2, now2);
    assert Loaded(file.state)[..|middle|] == middle;
    assert Loaded(file.state)[..|before|] == middle[..|before|];
    if "decision_id" !in data {
      IdPrefix(requestId, stamp1);
      IdPrefix(requestId, stamp2);
    }
  }

  predicate HasPrefix(s: string, prefix: string) {
    |prefix| <= |s| && s[..|prefix|] == prefix
  }

  /** A generated id starts with `dec-<request_id>-`. */
  lemma IdPrefix(requestId: string, stamp: string)
    ensures HasPrefix(DefaultDecisionId(requestId, stamp), "dec-" + requestId + "-")
  {
    var id := DefaultDecisionId(requestId, stamp);
    assert id == ("dec-" + requestId + "-") + stamp;
  }

  /** With stamps of one length (the 14 digits of `%Y%m%d%H%M%S`), a
      generated id determines its request and its stamp: ids of different
      requests never collide, and the same request collides exactly when
      two records fall in the same second. */
  lemma IdDeterminesRequestAndStamp(r1: string, s1: string, r2: string, s2: string)
    requires |s1| == |s2|
    ensures DefaultDecisionId(r1, s1) == DefaultDecisionId(r2, s2) <==> r1 == r2 && s1 == s2
  {
    var id1, id2 := DefaultDecisionId(r1, s1), DefaultDecisionId(r2, s2);
    if id1 == id2 {
      assert |r1| == |r2|;
      assert r1 == id1[4..4 + |r1|] == id2[4..4 + |r2|] == r2;
      assert s1 == id1[5 + |r1|..] == id2[5 + |r2|..] == s2;
    }
  }
}
