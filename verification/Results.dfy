/** Putting a composite tool's result together: the fan-out wrapper, the step-keyed map, and the scrub. */
module Results {
  import opened Json
  import opened Options

  /** What a fan-out step returns: the answer for each row's key, and how many rows were skipped, if any. */
  function FanOutResult(rows: map<string, Object>, skipped: nat): Object {
    var byKey: Object := map["byKey" := Obj(map k | k in rows :: Obj(rows[k]))];
    if skipped > 0 then byKey["skipped" := Number(skipped as real)] else byKey
  }

  lemma {:induction false} FanOutCounts(rows: map<string, Object>, skipped: nat)
    ensures var r := FanOutResult(rows, skipped);
            && r.Keys <= {"byKey", "skipped"} && "byKey" in r && r["byKey"].Obj?
            && ("skipped" in r ==> r["skipped"].Number? && r["skipped"].value > 0.0)
            && |r["byKey"].fields| as real + (if "skipped" in r then r["skipped"].value else 0.0) == (|rows| + skipped) as real
            && forall key | key in r["byKey"].fields :: key in rows && r["byKey"].fields[key] == Obj(rows[key])
  {
    var fields: Object := map k | k in rows :: Obj(rows[k]);
    assert fields.Keys == rows.Keys;
    assert |fields| == |fields.Keys| == |rows.Keys| == |rows|;
  }

  /** A key `scrubURIFields` deletes. */
  predicate UriKey(k: string) {
    k == "uri" || (|k| >= 3 && k[|k| - 3..] == "Uri")
  }

  /** `scrubURIFields`: at any depth of objects within objects. Arrays are left as they are. */
  function ScrubUris(j: Json): Json {
    if j.Obj? then Obj(map k | k in j.fields && !UriKey(k) :: ScrubUris(j.fields[k])) else j
  }

  /** `sempv2.ScrubEnvelope`: the links go, and the metadata is scrubbed. */
  function ScrubLinks(m: Object): Object {
    var kept := m - {"links"};
    if "meta" in m && m["meta"].Obj? then kept["meta" := ScrubUris(m["meta"])] else kept
  }

  /** `scrubEnvelope`: the same, and in every row of a fan-out. */
  function Scrub(j: Json): Json
    decreases j, 1
  {
    if !j.Obj? then j
    else
      var m := ScrubLinks(j.fields);
      if "byKey" in j.fields && j.fields["byKey"].Obj? then Obj(m["byKey" := ScrubRows(j.fields["byKey"])]) else Obj(m)
  }

  function ScrubRows(byKey: Json): Json
    requires byKey.Obj?
    decreases byKey, 0
  {
    Obj(map k | k in byKey.fields :: Scrub(byKey.fields[k]))
  }

  /** What stands at the end of a path of keys. */
  function At(j: Json, path: seq<string>): Option<Json>
    decreases |path|
  {
    if path == [] then Some(j)
    else if j.Obj? && path[0] in j.fields then At(j.fields[path[0]], path[1..]) else None
  }

  /** `uri`, or a key that ends in `Uri`. */
  ghost predicate NamesUri(k: string) {
    k == "uri" || exists stem :: k == stem + "Uri"
  }

  ghost predicate ThroughUri(path: seq<string>) {
    exists k | k in path :: NamesUri(k)
  }

  lemma {:induction false} UriKeyExact(k: string)
    ensures UriKey(k) <==> NamesUri(k)
  {
    if |k| >= 3 && k[|k| - 3..] == "Uri" {
      assert k == k[..|k| - 3] + "Uri";
    }
    if stem :| k == stem + "Uri" {
      assert k[|k| - 3..] == "Uri";
    }
  }

  lemma {:induction false} ThroughUriFirst(path: seq<string>)
    requires path != []
    ensures ThroughUri(path) <==> UriKey(path[0]) || ThroughUri(path[1..])
  {
    UriKeyExact(path[0]);
    assert path == [path[0]] + path[1..];
  }

  /** Scrubbing takes away what lies on a path through a URI key, and that alone: along every other path what was
      there is there, an object with the same said of its fields and anything else unchanged. */
  lemma {:induction false} ScrubUrisByPath(j: Json, path: seq<string>)
    ensures At(ScrubUris(j), path) ==
            if ThroughUri(path) then None else if At(j, path).Some? then Some(ScrubUris(At(j, path).value)) else None
    ensures !j.Obj? ==> ScrubUris(j) == j
    decreases |path|
  {
    if path != [] {
      ThroughUriFirst(path);
      if j.Obj? && path[0] in j.fields && !UriKey(path[0]) {
        ScrubUrisByPath(j.fields[path[0]], path[1..]);
        assert ScrubUris(j).fields[path[0]] == ScrubUris(j.fields[path[0]]);
      }
    }
  }

  /** No URI key at any depth, inside arrays too. */
  predicate UriFree(j: Json) {
    match j
    case Obj(fields) => forall k | k in fields :: !UriKey(k) && UriFree(fields[k])
    case Arr(items) => forall i | 0 <= i < |items| :: UriFree(items[i])
    case _ => true
  }

  /** No array holds a URI, other than under a key that is removed anyway. */
  predicate ArraysUriFree(j: Json) {
    match j
    case Obj(fields) => forall k | k in fields && !UriKey(k) :: ArraysUriFree(fields[k])
    case Arr(items) => UriFree(j)
    case _ => true
  }

  /** The scrubbed value holds no URI at any depth exactly when no array in it held one. */
  lemma {:induction false} ScrubUrisExact(j: Json)
    ensures UriFree(ScrubUris(j)) <==> ArraysUriFree(j)
  {
    if j.Obj? {
      forall k | k in j.fields && !UriKey(k)
        ensures UriFree(ScrubUris(j.fields[k])) <==> ArraysUriFree(j.fields[k])
      {
        ScrubUrisExact(j.fields[k]);
      }
      var r := ScrubUris(j).fields;
      assert forall k | k in r :: k in j.fields && !UriKey(k) && r[k] == ScrubUris(j.fields[k]);
      assert forall k | k in j.fields && !UriKey(k) :: k in r;
    }
  }

  /** A link inside an array of the metadata survives, whatever it says. */
  lemma {:induction false} ArrayKeepsUri(uri: string, data: Json)
    ensures var list := Arr([Obj(map["uri" := Str(uri)])]);
            var env: Object := map["data" := data, "meta" := Obj(map["links" := list])];
            && Scrub(Obj(env)) == Obj(env)
            && !Clean(Scrub(Obj(env))) && !Scrubbable(Obj(env))
  {
    var list := Arr([Obj(map["uri" := Str(uri)])]);
    var meta := Obj(map["links" := list]);
    var env: Object := map["data" := data, "meta" := meta];
    assert list.items[0].fields["uri"] == Str(uri) && UriKey("uri") && !UriKey("links");
    assert !UriFree(list.items[0]);
    assert !UriFree(list) && meta.fields["links"] == list;
    assert !ArraysUriFree(list);
    assert !ArraysUriFree(meta) && env["meta"] == meta;
    assert ScrubUris(list) == list;
    assert ScrubUris(meta).fields == meta.fields;
    assert env - {"links"} == env;
    assert env["meta" := ScrubUris(meta)] == env;
  }

  /** An envelope without links, whose metadata holds no URI at any depth; and the same of every row. */
  predicate Clean(j: Json)
    decreases j
  {
    j.Obj? ==>
      && "links" !in j.fields
      && ("meta" in j.fields ==> UriFree(j.fields["meta"]))
      && ("byKey" in j.fields && j.fields["byKey"].Obj? ==>
            forall k | k in j.fields["byKey"].fields :: Clean(j.fields["byKey"].fields[k]))
  }

  /** An envelope, and rows, whose metadata has no URI inside an array. */
  predicate Scrubbable(j: Json)
    decreases j
  {
    j.Obj? ==>
      && ("meta" in j.fields ==> ArraysUriFree(j.fields["meta"]))
      && ("byKey" in j.fields && j.fields["byKey"].Obj? ==>
            forall k | k in j.fields["byKey"].fields :: Scrubbable(j.fields["byKey"].fields[k]))
  }

  lemma {:induction false} ScrubLinksExact(m: Object)
    ensures var r := ScrubLinks(m);
            && "links" !in r
            && ("meta" in r <==> "meta" in m) && ("byKey" in r <==> "byKey" in m)
            && ("meta" in r ==> (UriFree(r["meta"]) <==> ArraysUriFree(m["meta"])))
            && ("byKey" in r ==> r["byKey"] == m["byKey"])
  {
    if "meta" in m { ScrubUrisExact(m["meta"]); }
  }

  predicate AllClean(rows: Object) {
    forall k | k in rows :: Clean(rows[k])
  }

  predicate AllScrubbable(rows: Object) {
    forall k | k in rows :: Scrubbable(rows[k])
  }

  lemma {:induction false} CleanUnfolds(m: Object, rows: Object)
    requires "links" !in m
    ensures Clean(Obj(m["byKey" := Obj(rows)])) <==> ("meta" in m ==> UriFree(m["meta"])) && AllClean(rows)
  {
    var n := m["byKey" := Obj(rows)];
    assert "meta" in n <==> "meta" in m;
  }

  lemma {:induction false} ScrubbableUnfolds(m: Object, rows: Object)
    requires "byKey" in m && m["byKey"] == Obj(rows)
    ensures Scrubbable(Obj(m)) <==> ("meta" in m ==> ArraysUriFree(m["meta"])) && AllScrubbable(rows)
  {
  }

  lemma {:induction false} RowsExact(byKey: Json)
    requires byKey.Obj?
    ensures AllClean(ScrubRows(byKey).fields) <==> AllScrubbable(byKey.fields)
    decreases byKey, 0
  {
    var rows, r := byKey.fields, ScrubRows(byKey).fields;
    forall k | k in rows
      ensures k in r && (Clean(r[k]) <==> Scrubbable(rows[k]))
    {
      ScrubExact(rows[k]);
    }
    assert r.Keys == rows.Keys;
  }

  /** Scrubbing leaves an envelope, and every row of a fan-out, clean exactly when no array in any of their
      metadata holds a URI. */
  lemma {:induction false} ScrubExact(j: Json)
    ensures Clean(Scrub(j)) <==> Scrubbable(j)
    decreases j, 1
  {
    if j.Obj? {
      ScrubLinksExact(j.fields);
      if "byKey" in j.fields && j.fields["byKey"].Obj? {
        var byKey := j.fields["byKey"];
        RowsExact(byKey);
        CleanUnfolds(ScrubLinks(j.fields), ScrubRows(byKey).fields);
        ScrubbableUnfolds(j.fields, byKey.fields);
      }
    }
  }

  /** The data of an envelope is never touched, its metadata stays an object, and nothing else is added. */
  lemma {:induction false} ScrubKeeps(m: Object)
    ensures Scrub(Obj(m)).Obj?
    ensures var r := Scrub(Obj(m)).fields;
            && r.Keys == m.Keys - {"links"}
            && (forall k | k in r && k != "meta" && k != "byKey" :: r[k] == m[k])
            && ("meta" in r ==> (r["meta"].Obj? <==> m["meta"].Obj?))
  {
  }

  /** `ApplyResultStrategy`: every step under its ID, scrubbed, with a summary beside them when the tool
      post-processes; or, if it leaves the raw steps out, the summary alone. */
  function Apply(steps: map<string, Object>, summary: Option<Json>, omitRawSteps: bool): Object {
    var out: Object := map id | id in steps :: Scrub(Obj(steps[id]));
    match summary
    case Some(s) => if omitRawSteps then map["summary" := s] else out["summary" := s]
    case None => out
  }

  predicate Shown(summary: Option<Json>, omitRawSteps: bool, id: string) {
    summary.Some? ==> !omitRawSteps && id != "summary"
  }

  /** Every step that is shown keeps its own data under its own ID, clean exactly when it could be scrubbed
      clean; the summary is the handler's own; and there is nothing else. */
  lemma {:induction false} ApplyKeeps(steps: map<string, Object>, summary: Option<Json>, omitRawSteps: bool)
    ensures var out := Apply(steps, summary, omitRawSteps);
            && (forall k :: k in out <==> (k in steps && Shown(summary, omitRawSteps, k)) || (summary.Some? && k == "summary"))
            && (summary.Some? ==> out["summary"] == summary.value)
            && forall id | id in steps && Shown(summary, omitRawSteps, id) ::
                 && out[id] == Scrub(Obj(steps[id]))
                 && out[id].Obj? && (Clean(out[id]) <==> Scrubbable(Obj(steps[id])))
                 && ("data" in out[id].fields <==> "data" in steps[id])
                 && ("data" in steps[id] ==> out[id].fields["data"] == steps[id]["data"])
  {
    var out := Apply(steps, summary, omitRawSteps);
    forall id | id in steps && Shown(summary, omitRawSteps, id)
      ensures out[id].Obj? && (Clean(out[id]) <==> Scrubbable(Obj(steps[id])))
      ensures "data" in out[id].fields <==> "data" in steps[id]
      ensures "data" in steps[id] ==> out[id].fields["data"] == steps[id]["data"]
    {
      assert out[id] == Scrub(Obj(steps[id]));
      ScrubKeeps(steps[id]);
      ScrubExact(Obj(steps[id]));
    }
  }
}
