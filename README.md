# Workflow orchestrator core, modelled in Dafny

The orchestrator is an MCP tool server. An agent calls its four tools to
take a 3D-asset production request through intake:

- `validate_preset` checks that the customer's export preset has a naming
  pattern and all four texture-packing channels.
- `plan_steps` matches the request against an ordered list of workflow rules
  and collects the steps of every rule that matches.
- `assign_artist` picks an artist who has capacity and every required skill.
  Among those, it takes the one with the lowest load.
- `record_decision` appends an audited decision record to a JSON file.

The tables the server loads at start-up (requests, artists, presets, rules)
are parameters of the model.

Modules, leaf first:

- `Wrappers`, `Values` (`values.dfy`): `Option`/`Result`, and JSON scalars as
  `Value`. The file also writes out the Python semantics the tools rely on:
  `==` with `True == 1`, truthiness, `dict.get` returning `None`, ASCII
  `str.lower`, and string `<` for `sorted`.
- `Tables` (`tables.dfy`): requests, artists, presets and rules, and the
  id-keyed indexes built from the loaded lists.
- `PresetValidator` (`validator.dfy`): `validate_preset` as a function, with
  the structured error cases it reports.
- `StepPlanner` (`planner.dfy`): `plan_steps` as a method whose loop is
  proved against the recursive functions `PlannedSteps` and `Trace`. Lemmas
  then state soundness, completeness and counting of the trace.
- `ArtistAssigner` (`assigner.dfy`): `assign_artist` as a loop method proved
  equal to the function `Assign`. Lemmas show that the artist it picks is the
  first least-loaded eligible one, and when it picks nobody.
- `DecisionRecorder` (`recorder.dfy`): the decisions file as a class whose
  `RecordDecision` method reads, appends and rewrites it.
- `Scenarios` (`scenarios.dfy`): eight of the nine tests of
  `test_server.py` (three for validation, two for planning, two for
  assignment and one for recording), over small tables built from what that
  file's comments say of the data. The ninth, the repeated recording, is
  `DecisionRecorder.RecordTwice`.

Three behaviours of `server.py` that the model keeps as written:

- Rule matching (`server.py:166-169`) reads a field the request lacks as
  `None`, so a missing field matches a condition whose value is `null` and
  fails every other condition.
- The account fallback (`server.py:73-82`) rejects a request whose
  `account` field is absent or falsy (`""`, `0`, `false`, `null`).
- When nobody is eligible, the reason names the whole required-skill list
  (`server.py:261`).

The contracts below are stated over definitions that carry no contract of
their own, because they are the source's expressions written out:

- `Values.PyEq` is Python `==` on scalars (`server.py:167`), `Values.Truthy`
  is the test `not account_id` (`server.py:76`), `Values.Get` is
  `dict.get` (`server.py:75`, `server.py:167`), and `Values.Lower`, with
  `Values.LowerChar`, is `str.lower` (`server.py:230`, `server.py:244-245`).
- `Tables.IndexBy` is the dict comprehension `{key(x): x for x in xs}`
  (`server.py:47-48`), where a later entry with the same key replaces an
  earlier one. `Tables.RequestKey` is `req["id"]` (`server.py:47`), kept only
  when it is a string, and `Tables.ArtistKey` is `artist["id"]`
  (`server.py:48`). `Tables.IndexArtists` is `artists_by_id`
  (`server.py:48`).
- `Values.StrLess` is Python's `<` on `str`, the order behind
  `sorted(missing_channels)` (`server.py:116`).
- `PresetValidator.PackingKeys` is `set(preset.get("packing", {}).keys())`
  (`server.py:110-112`), `MissingChannels` is
  `sorted(required_channels - actual_channels)` (`server.py:113-116`),
  `LookupPreset` is the preset lookup (`server.py:94`, `server.py:102`),
  `ChannelErrors` is the list of channel errors (`server.py:116`), and
  `PresetErrors` is the accumulated error list (`server.py:103-116`).
- `StepPlanner.Matches` is the `all(...)` test (`server.py:166-169`).
  `Trace` and `PlannedSteps` are `matched_rules` and `steps` after the loop
  (`server.py:162-183`); `PlanSteps` is proved to compute them.
- `ArtistAssigner.Need` is `required_skills_lower` (`server.py:245`). When
  a required skill is not a string, `skill.lower()` raises there, inside the
  loop, for the first artist with capacity. `AssignFor` returns that error
  first, so `Need` is then `{}`, a value that is only used when no artist has
  capacity, and the source never evaluates the set in that case.
- `ArtistAssigner.SkillSet` is the lowered skill set (`server.py:244`),
  `Eligible` is the capacity and subset test (`server.py:239-246`),
  `Candidates` is `eligible_artists` (`server.py:235-254`), and
  `AssignFor`/`Assign` are the tool's result (`server.py:214-273`);
  `AssignArtist` is proved to compute `Assign`.
- `DecisionRecorder.Loaded` is the list the file reads as
  (`server.py:307-315`), and `ReceiptOf` is the returned receipt
  (`server.py:324-328`).

## Model

| member | source | states |
|---|---|---|
| Values.PyEqIsEquivalence | server.py:166-169 | Python `==` on JSON scalars, as used for rule conditions, is reflexive, symmetric and transitive (with `True == 1`, `False == 0`) |
| Values.PyEqNull | server.py:167 | `None == v` holds exactly when `v` is `null` |
| Values.LowerIdempotent | server.py:244-246 | lowering an already lowered skill changes nothing, so lowering both sides of the subset test is stable |
| Values.StrLessIrreflexive | server.py:116 | the string order used by `sorted` is irreflexive |
| Values.StrictlySortedHasNoDuplicates | server.py:116 | a strictly sorted list of channels has no repeats |
| Tables.IndexRequests | server.py:47 | the request index exists exactly when every loaded request has an "id" (otherwise loading raises `KeyError`); a string id is in it exactly when some loaded request carries that id, and the request filed under an id carries it |
| Tables.IndexByLastWins | server.py:47-48 | a key is in an id index iff some element has that id, and it maps to the last such element |
| Tables.RequestIndexLastWins | server.py:47 | `requests_by_id[id]` is the last loaded request whose "id" is `id`, and it exists iff some request has that id |
| Tables.ArtistIndexLastWins | server.py:48 | `artists_by_id[id]` is the last loaded artist with that id, and it exists iff some artist has it |
| PresetValidator.Missing | server.py:111-113 | the filtered list holds exactly the required channels that the packing lacks |
| PresetValidator.MissingLength | server.py:113 | no more channels can be missing than are required |
| PresetValidator.MissingKeepsOrder | server.py:113-116 | filtering a strictly sorted required list leaves the missing channels strictly sorted |
| PresetValidator.MissingChannelsIsSortedDifference | server.py:110-116 | the missing channels are `{r,g,b,a}` minus the packing keys, strictly sorted |
| PresetValidator.MissingChannelsCount | server.py:113 | one entry per channel in the set difference |
| PresetValidator.MissingAgrees | server.py:110-113 | packing keys outside the required set do not change the missing list |
| PresetValidator.ResolveAccount | server.py:72-89 | a non-empty explicit account wins; otherwise resolution succeeds exactly when the request exists and its account field is truthy, and then gives that field's value; the only failures are RequestNotFound and MissingAccount |
| PresetValidator.ExplicitAccountChecksItsPreset | server.py:93-129 | with a non-empty explicit account that has a preset, the result is exactly that preset's accumulated errors, ok when there are none |
| PresetValidator.FallbackActsAsExplicit | server.py:72-102 | falling back to a request whose account field is a non-empty string gives the same result as passing that account explicitly |
| PresetValidator.ValidatePreset | server.py:55-133 | `ok` holds exactly when the error list is empty; a failure reports between one and five errors |
| PresetValidator.RequestLookupFailures | server.py:73-89 | with an empty account id: an unknown request gives exactly `[RequestNotFound]`, and a request with an absent or falsy account gives exactly `[MissingAccount]` |
| PresetValidator.ExplicitAccountSkipsRequestLookup | server.py:73-100 | with an explicit non-empty account the request table and request id do not matter; an unknown account gives exactly `[PresetNotFound]` |
| PresetValidator.UnknownAccountHasOneError | server.py:93-100 | an account without a preset fails with that single error and no further checks |
| PresetValidator.PresetErrorsShape | server.py:102-116 | a found preset's errors are MissingNaming first when naming is absent, then one error per missing channel in sorted order; each channel error names a channel of `{r,g,b,a}` that the packing lacks, and every such channel is reported |
| PresetValidator.ErrorListShape | server.py:105-116 | the accumulated list is the optional naming error followed by the sorted channel errors |
| PresetValidator.FoundPresetErrors | server.py:102-129 | once the preset is found, the result is exactly its accumulated errors, ok when there are none |
| PresetValidator.DistinctCard | server.py:113-116 | listing distinct channels loses none |
| PresetValidator.CompletePresetPasses | server.py:105-129 | a preset with naming and all four channels validates with no errors |
| PresetValidator.MissingAlphaIsReported | server.py:109-123 | a preset lacking channel "a" fails and its errors include `MissingChannel("a")` |
| PresetValidator.OnlyRequiredChannelsMatter | server.py:106-116 | two presets that agree on naming presence and on which of r, g, b, a they pack get the same errors |
| StepPlanner.PlanSteps | server.py:136-192 | an unknown request gets an empty plan; otherwise the loop over all rules computes exactly `PlannedSteps` and `Trace` |
| StepPlanner.TraceIsSound | server.py:162-183 | every trace entry names a rule of the list that matches, with that rule's own conditions and actions, and the indices strictly increase |
| StepPlanner.TraceIsComplete | server.py:162-183 | every matching rule has an entry in the trace (no early exit) |
| StepPlanner.TraceCountsMatches | server.py:171-183 | the trace has exactly as many entries as there are matching rules |
| StepPlanner.MatchingIndicesOfLast | server.py:162-171 | the matching rules of a list are those of its prefix plus the last rule when it matches |
| StepPlanner.StepsFollowTrace | server.py:171-183 | the steps are the joined steps of the trace entries, in trace order and not deduplicated; a matching rule without "steps" adds none |
| StepPlanner.StepsOfConcatenatedRules | server.py:162-176 | rules act independently: the steps over `a + b` are the steps over `a` followed by those over `b` |
| StepPlanner.MissingFieldMatchesOnlyNull | server.py:166-169 | a condition on a field the request lacks holds only when its value is `null` |
| StepPlanner.MatchesRespectsPyEq | server.py:166-169 | two requests with the same fields whose values are pairwise `==` (such as `True` and `1`) match the same rules |
| StepPlanner.EmptyConditionsMatchAll | server.py:166-169 | a rule with an empty `if` mapping matches every request, since `all` over no conditions is true |
| ArtistAssigner.RequiredSkills | server.py:224-232 | the required list is style, lowered engine, topology, each only when present and in that order; lowering a non-string engine is the only failure |
| ArtistAssigner.LowerAll | server.py:245 | lowering the required list succeeds exactly when every entry is a string, and gives the set of the lowered entries |
| ArtistAssigner.LeastLoaded | server.py:267 | `min` by load picks a candidate of minimal load that is the first among those with that load |
| ArtistAssigner.AssignArtist | server.py:195-277 | the loop over the artist pool computes exactly `Assign`, including the point at which lowering the required skills fails |
| ArtistAssigner.CandidateOrigin | server.py:235-254 | every candidate comes from an eligible artist of the pool, and the candidates before it are exactly those of the artists before that one |
| ArtistAssigner.CandidatesComplete | server.py:237-254 | every eligible artist of the pool is a candidate |
| ArtistAssigner.SelectionIsFirstLeastLoaded | server.py:257-267 | the selected candidate is an eligible artist whose load is minimal among eligible artists, and every earlier eligible artist has a strictly higher load |
| ArtistAssigner.NoCandidatesIffNoneEligible | server.py:235-257 | the candidate list is empty exactly when no artist of the pool is eligible |
| ArtistAssigner.AssignedArtistIsFirstLeastLoaded | server.py:223-273 | an assigned artist has capacity, has every required skill (case-insensitively), and is the first least-loaded such artist; the reason gives its name, the required skills, its load and its capacity |
| ArtistAssigner.UnassignedIffNoneEligible | server.py:214-264 | an unknown request gets no artist with a not-found reason; a known request gets no artist exactly when no artist is eligible, and the reason carries the required skills |
| ArtistAssigner.FaultsExactly | server.py:229-246 | assignment raises exactly when the engine is not a string, or when a style or topology is not a string and some artist has capacity |
| ArtistAssigner.EngineComparedLoweredOnce | server.py:229-246 | the engine, lowered when the required list is built and again before comparing, is compared as the engine name lowered once |
| ArtistAssigner.OnlyStyleEngineTopologyMatter | server.py:224-232 | requests that agree on style, engine and topology get the same assignment |
| DecisionRecorder.DefaultDecisionId | server.py:301 | the generated id is `dec-`, the request id, `-`, then the time stamp |
| DecisionRecorder.NewDecision | server.py:299-305 | the record has the payload's keys plus decision_id, request_id and recorded_at; payload values win over the generated fields |
| DecisionRecorder.DecisionsFile.RecordDecision | server.py:280-334 | the file afterwards holds the loaded list (empty for a missing or undecodable file) plus the new record at the end; it grows by one and keeps what it had; the receipt reports success, and its id and timestamp are the generated ones unless the payload supplies its own |
| DecisionRecorder.RecordTwice | test_server.py:85-98 | two records for one request grow the file by two, both succeed, and both generated ids start with `dec-<request_id>-` |
| DecisionRecorder.IdPrefix | server.py:301 | a generated id starts with `dec-<request_id>-` |
| DecisionRecorder.IdDeterminesRequestAndStamp | server.py:301 | for stamps of one length, two generated ids are equal exactly when the request ids and the stamps are |
| Scenarios.RequestTable | server.py:47 | the two scenario requests index under their own ids |
| Scenarios.ValidateScenarioSuccess | test_server.py:5-10 | req-001 (ArcadiaXR) validates with no errors |
| Scenarios.ValidateScenarioMissingChannel | test_server.py:13-19 | req-002 (TitanMfg) fails with the single error for channel "a" |
| Scenarios.MissingTitan | test_server.py:13-19 | a packing of r, g, b is missing only "a" |
| Scenarios.ValidateScenarioNotFound | test_server.py:22-27 | req-999 fails with a single not-found error |
| Scenarios.PlanScenario001 | test_server.py:30-37 | req-001 matches two rules and gets the steps style_tweak_review then export_unreal_glb |
| Scenarios.PlanScenario002 | test_server.py:40-46 | some matched rule of req-002 sets the expedite queue |
| Scenarios.RequiredSkills002 | test_server.py:49-51 | req-002 needs pbr, unreal and quad_only |
| Scenarios.RequiredSkills001 | test_server.py:59-61 | req-001 needs stylized_hard_surface and unreal |
| Scenarios.Need002 | test_server.py:49-51 | the lowered skill set of req-002 |
| Scenarios.Need001 | test_server.py:59-61 | the lowered skill set of req-001 |
| Scenarios.Eligibility | test_server.py:53-64 | only Ben can take req-002, and nobody can take req-001 |
| Scenarios.AssignScenario002 | test_server.py:49-56 | req-002 is assigned to Ben (a-2), and the reason gives Ben's name, the required skills, and the load and capacity 0/1 |
| Scenarios.AssignScenario001 | test_server.py:59-67 | req-001 gets no artist, and the reason carries its required skills |
| Scenarios.RecordScenario | test_server.py:70-82 | the record built for req-test-001 keeps the payload's list of steps, carries the request id, and its generated id starts with `dec-req-test-001-` |

## Left out

- The agent loop (`run_agent.py`) and the language-model calls it makes are not part of this model.
- Logging (`log_event`, `server.py:27-37`), `duration_ms` and the start-up `load_json` calls are left out as I/O. `log_event` also appends to `mcp.log`, and an I/O error there would propagate out of the tool; the model has no such failure.
- The MCP tool decorators and resources are left out. They are the transport, not the logic.
- The clock is two string parameters of `RecordDecision`: `stamp` for the id and `recordedAt` for the timestamp. Their formats (`%Y%m%d%H%M%S`, ISO 8601) are not modelled.
- File I/O of `record_decision` is modelled as the state of `DecisionsFile`. Write errors, concurrent writers, a file holding valid JSON that is not a list, and a list whose entries are not objects are left out.
- Read errors other than a missing file and a JSON decode error are left out. `server.py:314` catches only `JSONDecodeError` and `FileNotFoundError`, so a `UnicodeDecodeError`, `PermissionError` or `IsADirectoryError` while reading propagates to the caller; `FileState` has no state for them.
- Dictionary key order of the records and of `matched_rules` entries is left out, because maps are unordered here.
- Error and reason texts are structured values (`ValidationError`, `Reason`), not the exact English wording. The tests only look for substrings such as `'a'`, "not found", "capacity" and "No artists available".
- Request fields, rule condition values, preset values and rule directives are `null`, booleans, integers and strings. Floats, arrays and objects there are left out. Decision payloads are full JSON (`DecisionRecorder.Json`), with lists and objects, though without floats.
- Values.Lower: lowercases ASCII letters only, whereas Python's `str.lower` also lowers other Unicode letters.
- Preset naming and packing, rule `if`/`then` objects, rule `steps` lists, and artist fields are typed in `Tables`. A "steps" key of a `then` object always lands in `Actions.steps`: the `Tables.Directives` type keeps it out of the other directives. Shapes outside these types are not modelled. On them the source would raise for a non-object packing, a rule without `if`, a matching rule without `then` (`rule["then"]` at `server.py:172` raises `KeyError`, but only when the rule matches) or a non-numeric load. A `steps` value that is not a list behaves differently: `steps.extend` (`server.py:176`) silently appends each character of a string, or each key of an object, and raises only for a non-iterable value. None of these cases is modelled.
- Tables.IndexRequests: keys the index only by string ids. A request whose id is `True`, `1` or another non-string can never be found by a string `request_id`, and key collisions among such ids are not modelled.
- The data files (`request.json`, `artists.json`, `presets.json`, `rules.json`) are not part of this model. The `Scenarios` tables are built from what the comments of `test_server.py` say about them. Values those comments do not give are chosen: both naming patterns, the packing channel values, Ada's id `a-1` and her `unreal` skill, and req-001 having no `topology` field. TitanMfg having a naming pattern is what makes `Scenarios.ValidateScenarioMissingChannel` a single error, where the test asserts only a non-empty list holding `'a'`.
- `validate_preset` declares `account_id` without a default (`server.py:56`), and the `@mcp.tool` decorator returns the function unchanged. The one-argument calls at `test_server.py:7`, `test_server.py:15` and `test_server.py:24` therefore raise `TypeError` as written, and an MCP call must supply the argument too. The model takes the account id as a required `string`. The validation scenarios pass `""`, which the fallback at `server.py:73` handles, and so state the results those three tests intend.
