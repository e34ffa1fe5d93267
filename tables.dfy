// The four in-memory tables the tools work over, and the id lookup tables
// built from the loaded lists (server.py:47-48).

module Tables {
  import opened Wrappers
  import opened Values

  /** A row of the artists table. */
  datatype Artist = Artist(id: string, name: string, skills: seq<string>,
                           activeLoad: int, capacity: int)

  /** An account's preset: `naming` is the value under the "naming" key,
      `packing` the object under the "packing" key, each if present. */
  datatype Preset = Preset(naming: Option<Value>, packing: Option<map<string, Value>>)

  /** The directives of a `then` other than its "steps" list (such as
      "queue"); a "steps" key always lives in the `steps` field instead. */
  type Directives = m: map<string, Value> | "steps" !in m witness map[]

  /** The `then` part of a rule: its "steps" list, if any, and every other
      directive. */
  datatype Actions = Actions(steps: Option<seq<string>>, directives: Directives)

  /** A rule: the `if` mapping from field to required value, and its `then`. */
  datatype Rule = Rule(conditions: map<string, Value>, actions: Actions)

  /** The key a request is filed under in `requests_by_id`, as far as a
      string request id can reach it: only string ids can equal one. */
  function RequestKey(r: Record): Option<string> {
    if "id" in r && r["id"].VStr? then Some(r["id"].s) else None
  }

  function ArtistKey(a: Artist): Option<string> {
    Some(a.id)
  }

  /** A dict comprehension `{key(x): x for x in xs}`: later entries with the
      same key replace earlier ones. Entries without a key are skipped. */
  function IndexBy<T>(xs: seq<T>, key: T -> Option<string>): map<string, T>
  {
    if |xs| == 0 then map[]
    else
      var m := IndexBy(xs[..|xs| - 1], key);
      var last := xs[|xs| - 1];
      if key(last).Some? then m[key(last).value := last] else m
  }

  /** `requests_by_id` (server.py:47); `None` stands for the `KeyError`
      raised when some request has no "id". A string id is found exactly
      when some loaded request carries it, and what is found carries it. */
  function IndexRequests(requests: seq<Record>): (r: Option<map<string, Record>>)
    ensures r.Some? <==> forall i :: 0 <= i < |requests| ==> "id" in requests[i]
    ensures r.Some? ==> forall id :: id in r.value <==>
      exists i :: 0 <= i < |requests| && requests[i]["id"] == VStr(id)
    ensures r.Some? ==> forall id :: id in r.value ==>
      "id" in r.value[id] && r.value[id]["id"] == VStr(id)
  {
    if forall i :: 0 <= i < |requests| ==> "id" in requests[i] then
      var index := IndexBy(requests, RequestKey);
      assert forall id ::
               (id in index <==> exists i :: 0 <= i < |requests| && requests[i]["id"] == VStr(id)) &&
               (id in index ==> "id" in index[id] && index[id]["id"] == VStr(id)) by {
        forall id
          ensures id in index <==> exists i :: 0 <= i < |requests| && requests[i]["id"] == VStr(id)
          ensures id in index ==> "id" in index[id] && index[id]["id"] == VStr(id)
        {
          IndexByLastWins(requests, RequestKey, id);
          forall i | 0 <= i < |requests|
            ensures RequestKey(requests[i]) == Some(id) <==> requests[i]["id"] == VStr(id)
          {
          }
        }
      }
      Some(index)
    else None
  }

  /** `artists_by_id` (server.py:48). */
  function IndexArtists(artists: seq<Artist>): map<string, Artist> {
    IndexBy(artists, ArtistKey)
  }

  /** A key is in the index iff some entry has it, and it maps to the LAST
      entry with that key. */
  lemma {:induction false} IndexByLastWins<T>(xs: seq<T>, key: T -> Option<string>, k: string)
    ensures k in IndexBy(xs, key) <==> exists i :: 0 <= i < |xs| && key(xs[i]) == Some(k)
    ensures k in IndexBy(xs, key) ==>
      exists i :: 0 <= i < |xs| && key(xs[i]) == Some(k) && IndexBy(xs, key)[k] == xs[i] &&
        forall j :: i < j < |xs| ==> key(xs[j]) != Some(k)
    decreases |xs|
  {
    if |xs| > 0 {
      var init := xs[..|xs| - 1];
      IndexByLastWins(init, key, k);
      var n := |xs| - 1;
      if key(xs[n]) == Some(k) {
        assert IndexBy(xs, key)[k] == xs[n];
      } else {
        assert IndexBy(xs, key) == (if key(xs[n]).Some? then IndexBy(init, key)[key(xs[n]).value := xs[n]] else IndexBy(init, key));
        assert k in IndexBy(xs, key) <==> k in IndexBy(init, key);
        if k in IndexBy(xs, key) {
          var i :| 0 <= i < |init| && key(init[i]) == Some(k) && IndexBy(init, key)[k] == init[i] &&
            forall j :: i < j < |init| ==> key(init[j]) != Some(k);
          assert key(xs[i]) == Some(k) && IndexBy(xs, key)[k] == xs[i];
          assert forall j :: i < j < |xs| ==> key(xs[j]) != Some(k) by {
            forall j | i < j < |xs| ensures key(xs[j]) != Some(k) {
              if j < n { assert xs[j] == init[j]; }
            }
          }
        }
        if exists i :: 0 <= i < |xs| && key(xs[i]) == Some(k) {
          var i :| 0 <= i < |xs| && key(xs[i]) == Some(k);
          assert i < n && init[i] == xs[i];
        }
      }
    }
  }

  /** A request can be looked up by the string id it carries, and the one
      found is the last request in the list with that id. */
  lemma RequestIndexLastWins(requests: seq<Record>, id: string)
    requires IndexRequests(requests).Some?
    ensures var index := IndexRequests(requests).value;
      (id in index <==> exists i :: 0 <= i < |requests| && requests[i]["id"] == VStr(id)) &&
      (id in index ==>
         exists i :: 0 <= i < |requests| && index[id] == requests[i] &&
           requests[i]["id"] == VStr(id) &&
           forall j :: i < j < |requests| ==> requests[j]["id"] != VStr(id))
  {
    IndexByLastWins(requests, RequestKey, id);
    forall i | 0 <= i < |requests| ensures RequestKey(requests[i]) == Some(id) <==> requests[i]["id"] == VStr(id) {
    }
  }

  /** The artist found by id is the last artist in the list with that id. */
  lemma ArtistIndexLastWins(artists: seq<Artist>, id: string)
    ensures id in IndexArtists(artists) <==> exists i :: 0 <= i < |artists| && artists[i].id == id
    ensures id in IndexArtists(artists) ==>
      exists i :: 0 <= i < |artists| && IndexArtists(artists)[id] == artists[i] && artists[i].id == id &&
        forall j :: i < j < |artists| ==> artists[j].id != id
  {
    IndexByLastWins(artists, ArtistKey, id);
  }
}
