// validate_preset (server.py:55-133): resolve the account of a request and
// check that its preset has a naming pattern and all four packing channels.

module PresetValidator {
  import opened Wrappers
  import opened Values
  import opened Tables

  datatype ValidationError =
    | RequestNotFound(requestId: string)
    | MissingAccount(requestId: string)
    | PresetNotFound(account: Value)
    | MissingNaming
    | MissingChannel(channel: string)

  datatype Validation = Validation(ok: bool, errors: seq<ValidationError>)

  /** The required packing channels `{"r", "g", "b", "a"}`. */
  const RequiredChannels: set<string> := {"r", "g", "b", "a"}

  /** The same channels in Python's sorted order. */
  const SortedRequiredChannels: seq<string> := ["a", "b", "g", "r"]

  /** The channels a preset's packing object names; a preset without
      "packing" reads as an empty object. */
  function PackingKeys(p: Preset): set<string> {
    if p.packing.Some? then p.packing.value.Keys else {}
  }

  /** The members of `required` not in `actual`, in the order of `required`. */
  function Missing(required: seq<string>, actual: set<string>): (r: seq<string>)
    ensures forall c :: c in r ==> c in required && c !in actual
    ensures forall c :: c in required && c !in actual ==> c in r
  {
    if |required| == 0 then []
    else if required[0] in actual then Missing(required[1..], actual)
    else [required[0]] + Missing(required[1..], actual)
  }

  /** `sorted(required_channels - actual_channels)` (server.py:111-116). */
  function MissingChannels(actual: set<string>): seq<string> {
    Missing(SortedRequiredChannels, actual)
  }

  /** The account whose preset is checked (server.py:72-89): an explicit,
      non-empty account id wins; otherwise the request's "account" field,
      which must be present and truthy. */
  function ResolveAccount(requests: map<string, Record>, requestId: string,
                          accountId: string): (r: Result<Value, ValidationError>)
    ensures accountId != "" ==> r == Success(VStr(accountId))
    ensures r.Failure? ==> r.error == RequestNotFound(requestId) || r.error == MissingAccount(requestId)
    ensures r.Success? ==> Truthy(r.value)
    ensures accountId == "" ==>
      (r.Success? <==> requestId in requests && Truthy(Get(requests[requestId], "account"))) &&
      (r.Success? ==> r.value == Get(requests[requestId], "account"))
  {
    if accountId != "" then Success(VStr(accountId))
    else if requestId !in requests then Failure(RequestNotFound(requestId))
    else
      var account := Get(requests[requestId], "account");
      if !Truthy(account) then Failure(MissingAccount(requestId)) else Success(account)
  }

  /** The preset of an account; presets are keyed by strings, so an account
      value of another type has none. */
  function LookupPreset(presets: map<string, Preset>, account: Value): Option<Preset> {
    if account.VStr? && account.s in presets then Some(presets[account.s]) else None
  }

  /** The accumulated errors of a found preset (server.py:103-116). */
  function PresetErrors(p: Preset): seq<ValidationError> {
    (if p.naming.None? then [MissingNaming] else []) + ChannelErrors(MissingChannels(PackingKeys(p)))
  }

  /** One missing-channel error per channel, in order. */
  function ChannelErrors(cs: seq<string>): seq<ValidationError> {
    seq(|cs|, i requires 0 <= i < |cs| => MissingChannel(cs[i]))
  }

  /** validate_preset. Its result is ok exactly when no error is reported. */
  function ValidatePreset(requests: map<string, Record>, presets: map<string, Preset>,
                          requestId: string, accountId: string): (r: Validation)
    ensures r.ok <==> r.errors == []
    ensures !r.ok ==> 1 <= |r.errors| <= 5
  {
    match ResolveAccount(requests, requestId, accountId)
    case Failure(e) => Validation(false, [e])
    case Success(account) =>
      match LookupPreset(presets, account)
      case None => Validation(false, [PresetNotFound(account)])
      case Some(p) =>
        var errors := PresetErrors(p);
        assert |MissingChannels(PackingKeys(p))| <= 4 by {
          MissingLength(SortedRequiredChannels, PackingKeys(p));
        }
        if |errors| > 0 then Validation(false, errors) else Validation(true, [])
  }

  lemma {:induction false} MissingLength(required: seq<string>, actual: set<string>)
    ensures |Missing(required, actual)| <= |required|
  {
    if |required| > 0 {
      MissingLength(required[1..], actual);
    }
  }

  /** Filtering keeps a strictly sorted list strictly sorted. */
  lemma {:induction false} MissingKeepsOrder(required: seq<string>, actual: set<string>)
    requires StrictlySorted(required)
    ensures StrictlySorted(Missing(required, actual))
  {
    if |required| > 0 {
      var rest := required[1..];
      assert StrictlySorted(rest) by {
        forall i, j | 0 <= i < j < |rest| ensures StrLess(rest[i], rest[j]) {
          assert rest[i] == required[i + 1] && rest[j] == required[j + 1];
        }
      }
      MissingKeepsOrder(rest, actual);
      var m := Missing(rest, actual);
      if required[0] !in actual {
        forall k | 0 <= k < |m| ensures StrLess(required[0], m[k]) {
          assert m[k] in rest;
          var j :| 0 <= j < |rest| && rest[j] == m[k];
          assert required[j + 1] == m[k];
        }
        var r := [required[0]] + m;
        forall i, j | 0 <= i < j < |r| ensures StrLess(r[i], r[j]) {
          if i == 0 {
            assert r[j] == m[j - 1];
          } else {
            assert r[i] == m[i - 1] && r[j] == m[j - 1];
          }
        }
      }
    }
  }

  /** The missing channels are exactly `{r,g,b,a}` minus the packing keys,
      in strictly increasing string order, each once. Extra keys play no part. */
  lemma MissingChannelsIsSortedDifference(actual: set<string>)
    ensures var m := MissingChannels(actual);
      (forall c :: c in m <==> c in RequiredChannels - actual) &&
      StrictlySorted(m) &&
      (forall i, j :: 0 <= i < j < |m| ==> m[i] != m[j])
  {
    assert StrictlySorted(SortedRequiredChannels) by {
      var s := SortedRequiredChannels;
      assert StrLess(s[0], s[1]) && StrLess(s[0], s[2]) && StrLess(s[0], s[3]);
      assert StrLess(s[1], s[2]) && StrLess(s[1], s[3]) && StrLess(s[2], s[3]);
    }
    MissingKeepsOrder(SortedRequiredChannels, actual);
    StrictlySortedHasNoDuplicates(MissingChannels(actual));
    forall c ensures c in SortedRequiredChannels <==> c in RequiredChannels {
    }
  }

  /** With an empty account id and an unknown request, the only
      error is that the request was not found; with a known request that
      has no (truthy) account, the only error is that. */
  lemma RequestLookupFailures(requests: map<string, Record>, presets: map<string, Preset>,
                              requestId: string, accountId: string)
    requires accountId == ""
    ensures requestId !in requests ==>
      ValidatePreset(requests, presets, requestId, accountId) == Validation(false, [RequestNotFound(requestId)])
    ensures requestId in requests && !Truthy(Get(requests[requestId], "account")) ==>
      ValidatePreset(requests, presets, requestId, accountId) == Validation(false, [MissingAccount(requestId)])
    ensures requestId in requests && "account" !in requests[requestId] ==>
      ValidatePreset(requests, presets, requestId, accountId) == Validation(false, [MissingAccount(requestId)])
  {
  }

  /** An explicit non-empty account id never consults the requests table:
      the result is the same whatever the table and the request id. */
  lemma ExplicitAccountSkipsRequestLookup(requests1: map<string, Record>, requests2: map<string, Record>,
                                          presets: map<string, Preset>,
                                          requestId1: string, requestId2: string, accountId: string)
    requires accountId != ""
    ensures ValidatePreset(requests1, presets, requestId1, accountId) ==
            ValidatePreset(requests2, presets, requestId2, accountId)
    ensures accountId !in presets ==>
      ValidatePreset(requests1, presets, requestId1, accountId) ==
        Validation(false, [PresetNotFound(VStr(accountId))])
  {
  }

  /** An explicit account with a preset has exactly that preset checked. */
  lemma ExplicitAccountChecksItsPreset(requests: map<string, Record>, presets: map<string, Preset>,
                                       requestId: string, account: string)
    requires account != "" && account in presets
    ensures ValidatePreset(requests, presets, requestId, account) ==
      Validation(PresetErrors(presets[account]) == [], PresetErrors(presets[account]))
  {
  }

  /** Falling back to a request whose account field is a non-empty string
      gives the same result as passing that account explicitly. */
  lemma FallbackActsAsExplicit(requests: map<string, Record>, presets: map<string, Preset>,
                               requestId: string, accountId: string, account: string)
    requires accountId == ""
    requires requestId in requests && Get(requests[requestId], "account") == VStr(account)
    requires account != ""
    ensures ValidatePreset(requests, presets, requestId, accountId) ==
      ValidatePreset(requests, presets, requestId, account)
  {
  }

  /** An account, resolved from the request or given, with no preset yields
      exactly one "No preset found" error. */
  lemma UnknownAccountHasOneError(requests: map<string, Record>, presets: map<string, Preset>,
                                  requestId: string, accountId: string)
    requires ResolveAccount(requests, requestId, accountId).Success?
    requires LookupPreset(presets, ResolveAccount(requests, requestId, accountId).value).None?
    ensures ValidatePreset(requests, presets, requestId, accountId) ==
      Validation(false, [PresetNotFound(ResolveAccount(requests, requestId, accountId).value)])
  {
  }

  /** The errors of a found preset: the naming error first if "naming" is
      absent, then one missing-channel error per member of `{r,g,b,a}`
      absent from the packing keys, in sorted order, and nothing else. */
  lemma PresetErrorsShape(p: Preset)
    ensures var e := PresetErrors(p);
      var offset := if p.naming.None? then 1 else 0;
      (MissingNaming in e <==> p.naming.None?) &&
      (p.naming.None? ==> e[0] == MissingNaming) &&
      |e| == offset + |RequiredChannels - PackingKeys(p)| &&
      (forall i :: offset <= i < |e| ==> e[i].MissingChannel?) &&
      (forall c :: MissingChannel(c) in e <==> c in RequiredChannels - PackingKeys(p)) &&
      (forall i, j :: offset <= i < j < |e| ==> StrLess(e[i].channel, e[j].channel))
  {
    var keys := PackingKeys(p);
    var m := MissingChannels(keys);
    MissingChannelsCount(keys);
    MissingChannelsIsSortedDifference(keys);
    ErrorListShape(p.naming.None?, m);
  }

  /** The shape of a naming error (if any) followed by channel errors. */
  lemma ErrorListShape(namingMissing: bool, m: seq<string>)
    requires StrictlySorted(m)
    ensures var e := (if namingMissing then [MissingNaming] else []) + ChannelErrors(m);
      var offset := if namingMissing then 1 else 0;
      (MissingNaming in e <==> namingMissing) &&
      (namingMissing ==> e[0] == MissingNaming) &&
      |e| == offset + |m| &&
      (forall i :: offset <= i < |e| ==> e[i].MissingChannel?) &&
      (forall c :: MissingChannel(c) in e <==> c in m) &&
      (forall i, j :: offset <= i < j < |e| ==> StrLess(e[i].channel, e[j].channel))
  {
    var naming: seq<ValidationError> := if namingMissing then [MissingNaming] else [];
    var e := naming + ChannelErrors(m);
    var offset := |naming|;
    assert forall i :: offset <= i < |e| ==> e[i] == MissingChannel(m[i - offset]);
    forall c ensures MissingChannel(c) in e <==> c in m {
      if MissingChannel(c) in e {
        var i :| 0 <= i < |e| && e[i] == MissingChannel(c);
        assert i >= offset;
        assert m[i - offset] == c;
      }
      if c in m {
        var k :| 0 <= k < |m| && m[k] == c;
        assert e[k + offset] == MissingChannel(c);
      }
    }
    forall i, j | offset <= i < j < |e| ensures StrLess(e[i].channel, e[j].channel) {
      assert e[i].channel == m[i - offset] && e[j].channel == m[j - offset];
    }
  }

  /** There are as many missing channels as members of the set difference. */
  lemma MissingChannelsCount(actual: set<string>)
    ensures |MissingChannels(actual)| == |RequiredChannels - actual|
  {
    var m := MissingChannels(actual);
    MissingChannelsIsSortedDifference(actual);
    assert RequiredChannels - actual == set c | c in m;
    DistinctCard(m);
  }

  /** Once a preset is found, validate_preset reports exactly its errors. */
  lemma FoundPresetErrors(requests: map<string, Record>, presets: map<string, Preset>,
                          requestId: string, accountId: string, p: Preset)
    requires ResolveAccount(requests, requestId, accountId).Success?
    requires LookupPreset(presets, ResolveAccount(requests, requestId, accountId).value) == Some(p)
    ensures ValidatePreset(requests, presets, requestId, accountId) ==
      Validation(PresetErrors(p) == [], PresetErrors(p))
  {
  }

  /** A list without duplicates has as many elements as its set. */
  lemma {:induction false} DistinctCard(m: seq<string>)
    requires forall i, j :: 0 <= i < j < |m| ==> m[i] != m[j]
    ensures |set c | c in m| == |m|
  {
    if |m| > 0 {
      var rest := m[1..];
      DistinctCard(rest);
      assert (set c | c in m) == (set c | c in rest) + {m[0]};
      assert m[0] !in rest by {
        forall k | 0 <= k < |rest| ensures rest[k] != m[0] {
          assert rest[k] == m[k + 1];
        }
      }
    }
  }

  /** A preset with a naming pattern and at least the four channels passes. */
  lemma CompletePresetPasses(requests: map<string, Record>, presets: map<string, Preset>,
                             requestId: string, accountId: string, p: Preset)
    requires ResolveAccount(requests, requestId, accountId).Success?
    requires LookupPreset(presets, ResolveAccount(requests, requestId, accountId).value) == Some(p)
    requires p.naming.Some? && RequiredChannels <= PackingKeys(p)
    ensures ValidatePreset(requests, presets, requestId, accountId) == Validation(true, [])
  {
    PresetErrorsShape(p);
  }

  /** A preset whose packing lacks channel "a" fails with an error naming it. */
  lemma MissingAlphaIsReported(requests: map<string, Record>, presets: map<string, Preset>,
                               requestId: string, accountId: string, p: Preset)
    requires ResolveAccount(requests, requestId, accountId).Success?
    requires LookupPreset(presets, ResolveAccount(requests, requestId, accountId).value) == Some(p)
    requires "a" !in PackingKeys(p)
    ensures var r := ValidatePreset(requests, presets, requestId, accountId);
      !r.ok && MissingChannel("a") in r.errors
  {
    PresetErrorsShape(p);
  }

  /** Two presets that agree on whether they have a naming pattern and on
      which of the four channels they pack give the same errors: packing
      values and extra channels are ignored. */
  lemma OnlyRequiredChannelsMatter(p1: Preset, p2: Preset)
    requires p1.naming.Some? <==> p2.naming.Some?
    requires PackingKeys(p1) * RequiredChannels == PackingKeys(p2) * RequiredChannels
    ensures PresetErrors(p1) == PresetErrors(p2)
  {
    forall c | c in SortedRequiredChannels ensures c in PackingKeys(p1) <==> c in PackingKeys(p2) {
      assert c in RequiredChannels;
      assert c in PackingKeys(p1) <==> c in PackingKeys(p1) * RequiredChannels;
    }
    MissingAgrees(SortedRequiredChannels, PackingKeys(p1), PackingKeys(p2));
  }

  lemma {:induction false} MissingAgrees(required: seq<string>, a1: set<string>, a2: set<string>)
    requires forall c :: c in required ==> (c in a1 <==> c in a2)
    ensures Missing(required, a1) == Missing(required, a2)
  {
    if |required| > 0 {
      MissingAgrees(required[1..], a1, a2);
    }
  }
}
