/** The REST views: the JSON tree as `json.loads` returns it and its
    `fix_json` clean-up, the JSON projection of a field's stored
    properties, the representation `Rest_View.GET` answers with, the
    updates of `_modify_resource`, and the catalog query and item list of
    `Rest_Query.GET`. */
module Rest {
  import opened Common
  import opened Tree
  import opened Catalog

  newtype byte = b: int | 0 <= b < 256

  /** A JSON value in Python's terms: unicode and byte strings are
      distinct leaves, and a dict is its list of (key, value) items, in
      the dict's own order, with no key twice. */
  datatype Json =
    | Null
    | Boolean(b: bool)
    | Number(n: int)
    | Unicode(s: string)
    | Bytes(bs: seq<byte>)
    | List(items: seq<Json>)
    | Dict(entries: seq<(Json, Json)>)

  // ---------------------------------------------------------------------
  // fix_json (rest.py:32-45)
  // ---------------------------------------------------------------------

  /** Where the key k sits among the items of a dict, if it is there. */
  function KeyIndex(d: seq<(Json, Json)>, k: Json): (r: Option<nat>)
    ensures r.None? <==> forall i :: 0 <= i < |d| ==> d[i].0 != k
    ensures r.Some? ==> r.value < |d| && d[r.value].0 == k
  {
    if |d| == 0 then None
    else match KeyIndex(d[..|d| - 1], k)
      case Some(i) => Some(i)
      case None => if d[|d| - 1].0 == k then Some(|d| - 1) else None
  }

  /** `d[k] = v`: a key already there keeps its place and takes the new
      value, a new key goes last. */
  function Put(d: seq<(Json, Json)>, k: Json, v: Json): seq<(Json, Json)>
  {
    match KeyIndex(d, k)
    case Some(i) => d[i := (k, v)]
    case None => d + [(k, v)]
  }

  /** The dict a comprehension `{k: v for ...}` builds from its pairs. */
  function BuildDict(ps: seq<(Json, Json)>): seq<(Json, Json)>
  {
    if |ps| == 0 then [] else Put(BuildDict(ps[..|ps| - 1]), ps[|ps| - 1].0, ps[|ps| - 1].1)
  }

  predicate DistinctKeys(d: seq<(Json, Json)>)
  {
    forall i, j :: 0 <= i < j < |d| ==> d[i].0 != d[j].0
  }

  /** `fix_json(obj)`: every unicode string, dict keys included, becomes
      its UTF-8 encoding (`utf8`, the codec, is not part of this model);
      lists and dicts are rebuilt from their fixed parts; anything else is
      returned as it is. */
  function FixJson(obj: Json, utf8: string -> seq<byte>): Json
  {
    match obj
    case Unicode(s) => Bytes(utf8(s))
    case List(xs) => List(seq(|xs|, i requires 0 <= i < |xs| => FixJson(xs[i], utf8)))
    case Dict(es) => Dict(BuildDict(seq(|es|, i requires 0 <= i < |es| => (FixJson(es[i].0, utf8), FixJson(es[i].1, utf8)))))
    case _ => obj
  }

  /** No unicode string anywhere, and no dict with a key twice. */
  predicate Fixed(obj: Json)
  {
    match obj
    case Unicode(_) => false
    case List(xs) => forall i :: 0 <= i < |xs| ==> Fixed(xs[i])
    case Dict(es) => DistinctKeys(es) && forall i :: 0 <= i < |es| ==> Fixed(es[i].0) && Fixed(es[i].1)
    case _ => true
  }

  /** Putting a key keeps the keys distinct, and every item of the result
      is the new pair or an item of the dict before. */
  lemma PutFacts(d: seq<(Json, Json)>, k: Json, v: Json)
    requires DistinctKeys(d)
    ensures DistinctKeys(Put(d, k, v))
    ensures forall i :: 0 <= i < |Put(d, k, v)| ==> Put(d, k, v)[i] == (k, v) || Put(d, k, v)[i] in d
    ensures |Put(d, k, v)| == |d| + (if KeyIndex(d, k).None? then 1 else 0)
  {
    match KeyIndex(d, k)
    case Some(i) =>
      forall a | 0 <= a < |d| && a != i
        ensures d[i := (k, v)][a] == d[a]
      {
      }
    case None =>
  }

  /** The comprehension yields distinct keys, built from the given pairs
      only. */
  lemma {:induction false} BuildDictFacts(ps: seq<(Json, Json)>)
    ensures DistinctKeys(BuildDict(ps))
    ensures forall i :: 0 <= i < |BuildDict(ps)| ==> BuildDict(ps)[i] in ps
    ensures |BuildDict(ps)| <= |ps|
  {
    if |ps| > 0 {
      var init, last := ps[..|ps| - 1], ps[|ps| - 1];
      BuildDictFacts(init);
      var b := BuildDict(init);
      PutFacts(b, last.0, last.1);
      forall i | 0 <= i < |BuildDict(ps)|
        ensures BuildDict(ps)[i] in ps
      {
        if BuildDict(ps)[i] != last {
          assert BuildDict(ps)[i] in b;
          var j :| 0 <= j < |init| && init[j] == BuildDict(ps)[i];
          assert ps[j] == init[j];
        }
      }
    }
  }

  /** With distinct keys to start with, the comprehension yields the
      pairs themselves. */
  lemma {:induction false} BuildDictOfDistinct(ps: seq<(Json, Json)>)
    requires DistinctKeys(ps)
    ensures BuildDict(ps) == ps
  {
    if |ps| > 0 {
      var init, last := ps[..|ps| - 1], ps[|ps| - 1];
      assert DistinctKeys(init) by {
        forall a, c | 0 <= a < c < |init|
          ensures init[a].0 != init[c].0
        {
          assert init[a] == ps[a] && init[c] == ps[c];
        }
      }
      BuildDictOfDistinct(init);
      assert KeyIndex(init, last.0).None? by {
        forall a | 0 <= a < |init|
          ensures init[a].0 != last.0
        {
          assert ps[a] == init[a];
        }
      }
      assert ps == init + [last];
    }
  }

  /** What `fix_json` returns is free of unicode strings. */
  lemma {:induction false} FixJsonFixed(obj: Json, utf8: string -> seq<byte>)
    ensures Fixed(FixJson(obj, utf8))
  {
    match obj
    case List(xs) =>
      forall i | 0 <= i < |xs|
        ensures Fixed(FixJson(xs[i], utf8))
      {
        FixJsonFixed(xs[i], utf8);
      }
    case Dict(es) =>
      var ps := seq(|es|, i requires 0 <= i < |es| => (FixJson(es[i].0, utf8), FixJson(es[i].1, utf8)));
      BuildDictFacts(ps);
      var d := BuildDict(ps);
      forall i | 0 <= i < |d|
        ensures Fixed(d[i].0) && Fixed(d[i].1)
      {
        var j :| 0 <= j < |ps| && ps[j] == d[i];
        FixJsonFixed(es[j].0, utf8);
        FixJsonFixed(es[j].1, utf8);
      }
    case _ =>
  }

  /** `fix_json` leaves a value without unicode strings as it is. */
  lemma {:induction false} FixJsonOfFixed(obj: Json, utf8: string -> seq<byte>)
    requires Fixed(obj)
    ensures FixJson(obj, utf8) == obj
  {
    match obj
    case List(xs) =>
      forall i | 0 <= i < |xs|
        ensures FixJson(xs[i], utf8) == xs[i]
      {
        FixJsonOfFixed(xs[i], utf8);
      }
    case Dict(es) =>
      var ps := seq(|es|, i requires 0 <= i < |es| => (FixJson(es[i].0, utf8), FixJson(es[i].1, utf8)));
      forall i | 0 <= i < |es|
        ensures ps[i] == es[i]
      {
        FixJsonOfFixed(es[i].0, utf8);
        FixJsonOfFixed(es[i].1, utf8);
      }
      assert ps == es;
      BuildDictOfDistinct(ps);
    case _ =>
  }

  /** Applying `fix_json` twice is applying it once. */
  lemma FixJsonIdempotent(obj: Json, utf8: string -> seq<byte>)
    ensures FixJson(FixJson(obj, utf8), utf8) == FixJson(obj, utf8)
  {
    FixJsonFixed(obj, utf8);
    FixJsonOfFixed(FixJson(obj, utf8), utf8);
  }

  /** The shape `fix_json` keeps: a unicode string becomes its encoding, a
      list keeps its length and order, a dict keeps its number of keys
      when no two keys become equal, and every other value is returned
      unchanged. */
  lemma FixJsonShape(obj: Json, utf8: string -> seq<byte>)
    ensures obj.Unicode? ==> FixJson(obj, utf8) == Bytes(utf8(obj.s))
    ensures obj.List? ==> (FixJson(obj, utf8).List? && |FixJson(obj, utf8).items| == |obj.items| &&
                           forall i :: 0 <= i < |obj.items| ==> FixJson(obj, utf8).items[i] == FixJson(obj.items[i], utf8))
    ensures obj.Dict? ==> FixJson(obj, utf8).Dict? && |FixJson(obj, utf8).entries| <= |obj.entries|
    ensures obj.Dict? && (forall i, j :: 0 <= i < j < |obj.entries| ==> FixJson(obj.entries[i].0, utf8) != FixJson(obj.entries[j].0, utf8)) ==>
              |FixJson(obj, utf8).entries| == |obj.entries|
    ensures !obj.Unicode? && !obj.List? && !obj.Dict? ==> FixJson(obj, utf8) == obj
  {
    if obj.Dict? {
      var es := obj.entries;
      var ps := seq(|es|, i requires 0 <= i < |es| => (FixJson(es[i].0, utf8), FixJson(es[i].1, utf8)));
      BuildDictFacts(ps);
      if DistinctKeys(ps) {
        BuildDictOfDistinct(ps);
      }
    }
  }

  // ---------------------------------------------------------------------
  // property_to_json / field_to_json (rest.py:48-80)
  // ---------------------------------------------------------------------

  /** A stored property: its value and its parameters (a parameter set to
      None is taken as absent). */
  datatype Property<V> = Property(value: V, parameters: map<string, V>)

  /** A field of a resource class: whether it is a metadata field, its
      datatype's `encode`, and its `parameters_schema` (each parameter's
      datatype `encode`). */
  datatype Field<!V> = Field(isMetadata: bool, encode: V -> string, parameterSchema: map<string, V -> string>)

  /** What the metadata holds for a field: one property, a list of them
      (a multiple field), or a dict of them by language, given by its
      values in the dict's order. */
  datatype Stored<V> = One(prop: Property<V>) | ListOf(props: seq<Property<V>>) | DictOf(values: seq<Property<V>>)

  /** The JSON of a field: one dict, or a list of dicts. */
  datatype FieldJson = Single(m: map<string, string>) | Several(ms: seq<map<string, string>>)

  /** The dict `property_to_json` fills: the encoded value under 'value',
      then (when the property has parameters) each parameter of the schema
      the property sets, encoded by its own datatype. */
  function PropertyJson<V>(f: Field<V>, p: Property<V>): (r: map<string, string>)
    ensures "value" in r
    ensures |p.parameters| == 0 ==> r == map["value" := f.encode(p.value)]
    ensures forall n :: n in r && n != "value" ==> n in f.parameterSchema && n in p.parameters
    ensures forall n :: n in f.parameterSchema && n in p.parameters ==> n in r && r[n] == f.parameterSchema[n](p.parameters[n])
    ensures "value" !in f.parameterSchema || "value" !in p.parameters ==> r["value"] == f.encode(p.value)
  {
    var base := map["value" := f.encode(p.value)];
    if |p.parameters| == 0 then base
    else base + map n | n in f.parameterSchema.Keys * p.parameters.Keys :: f.parameterSchema[n](p.parameters[n])
  }

  /** `property_to_json(field, prop)`. */
  method PropertyToJson<V>(f: Field<V>, p: Property<V>) returns (value: map<string, string>)
    ensures value == PropertyJson(f, p)
  {
    value := map["value" := f.encode(p.value)];
    if |p.parameters| == 0 {
      return;
    }
    value := AddParameters(f, p, value);
    PropertyJsonPointwise(f, p, value);
  }

  /** The loop of `property_to_json` over the parameter schema, in
      whatever order the dict yields its names. */
  method AddParameters<V>(f: Field<V>, p: Property<V>, value0: map<string, string>) returns (value: map<string, string>)
    requires value0 == map["value" := f.encode(p.value)]
    ensures forall n :: n in value <==> n == "value" || (n in f.parameterSchema && n in p.parameters)
    ensures forall n :: n in f.parameterSchema && n in p.parameters ==> value[n] == f.parameterSchema[n](p.parameters[n])
    ensures !("value" in f.parameterSchema && "value" in p.parameters) ==> value["value"] == f.encode(p.value)
  {
    value := value0;
    var todo := f.parameterSchema.Keys;
    while todo != {}
      invariant todo <= f.parameterSchema.Keys
      invariant forall n :: n in value <==> n == "value" || (n in f.parameterSchema && n !in todo && n in p.parameters)
      invariant forall n :: n in f.parameterSchema && n !in todo && n in p.parameters ==> value[n] == f.parameterSchema[n](p.parameters[n])
      invariant !("value" in f.parameterSchema && "value" !in todo && "value" in p.parameters) ==> value["value"] == f.encode(p.value)
      decreases |todo|
    {
      var name :| name in todo;
      if name in p.parameters {
        value := value[name := f.parameterSchema[name](p.parameters[name])];
      }
      todo := todo - {name};
    }
  }

  /** A dict with the keys and values `property_to_json` promises (for a
      property with parameters) is the one it fills. */
  lemma PropertyJsonPointwise<V>(f: Field<V>, p: Property<V>, value: map<string, string>)
    requires |p.parameters| > 0
    requires forall n :: n in value <==> n == "value" || (n in f.parameterSchema && n in p.parameters)
    requires forall n :: n in f.parameterSchema && n in p.parameters ==> value[n] == f.parameterSchema[n](p.parameters[n])
    requires !("value" in f.parameterSchema && "value" in p.parameters) ==> value["value"] == f.encode(p.value)
    ensures value == PropertyJson(f, p)
  {
    var spec := PropertyJson(f, p);
    assert forall n :: n in value <==> n in spec;
    assert forall n :: n in value ==> value[n] == spec[n];
  }

  /** `field_to_json(resource, name)`: nothing for an unknown field, a
      field missing from the metadata or a field kept outside it; one dict
      per property otherwise. */
  function FieldToJson<V>(fields: map<string, Field<V>>, props: map<string, Stored<V>>, name: string): (r: Option<FieldJson>)
    ensures r.Some? <==> name in fields && fields[name].isMetadata && name in props
    ensures r.Some? && props[name].One? ==> r.value == Single(PropertyJson(fields[name], props[name].prop))
    ensures r.Some? && props[name].ListOf? ==>
              r.value.Several? && |r.value.ms| == |props[name].props| &&
              forall i :: 0 <= i < |r.value.ms| ==> r.value.ms[i] == PropertyJson(fields[name], props[name].props[i])
    ensures r.Some? && props[name].DictOf? ==>
              r.value.Several? && |r.value.ms| == |props[name].values| &&
              forall i :: 0 <= i < |r.value.ms| ==> r.value.ms[i] == PropertyJson(fields[name], props[name].values[i])
  {
    if name !in fields || !fields[name].isMetadata || name !in props then None
    else
      var f := fields[name];
      match props[name]
      case One(p) => Some(Single(PropertyJson(f, p)))
      case ListOf(ps) => Some(Several(seq(|ps|, i requires 0 <= i < |ps| => PropertyJson(f, ps[i]))))
      case DictOf(ps) => Some(Several(seq(|ps|, i requires 0 <= i < |ps| => PropertyJson(f, ps[i]))))
  }

  // ---------------------------------------------------------------------
  // Rest_View.GET (rest.py:98-115) and the items of Rest_Query.GET
  // (rest.py:194-202)
  // ---------------------------------------------------------------------

  /** A resource as the REST views read it. */
  datatype Resource<!V> = Resource(classId: string, abspath: string, fieldNames: seq<string>,
                                  fields: map<string, Field<V>>, props: map<string, Stored<V>>)

  /** A value of the dicts the views answer with: the path string of a
      query item, or a field's JSON. */
  datatype Entry = PathEntry(path: string) | JsonEntry(json: FieldJson)

  /** `d[name] = value` for every name whose JSON is not None, in order. */
  function AddFields<V>(d: map<string, Entry>, res: Resource<V>, names: seq<string>): map<string, Entry>
  {
    if |names| == 0 then d
    else
      var n := |names| - 1;
      var m := AddFields(d, res, names[..n]);
      match FieldToJson(res.fields, res.props, names[n])
      case Some(j) => m[names[n] := JsonEntry(j)]
      case None => m
  }

  /** The keys are those of d and the names with JSON; a name with JSON
      maps to it, every other key keeps its value in d. */
  lemma {:induction false} AddFieldsKeys<V>(d: map<string, Entry>, res: Resource<V>, names: seq<string>)
    ensures forall k :: k in AddFields(d, res, names) <==>
              k in d || (k in names && FieldToJson(res.fields, res.props, k).Some?)
    ensures forall k :: k in names && FieldToJson(res.fields, res.props, k).Some? ==>
              AddFields(d, res, names)[k] == JsonEntry(FieldToJson(res.fields, res.props, k).value)
    ensures forall k :: k in d && !(k in names && FieldToJson(res.fields, res.props, k).Some?) ==>
              AddFields(d, res, names)[k] == d[k]
  {
    if |names| > 0 {
      var n := |names| - 1;
      var m := AddFields(d, res, names[..n]);
      AddFieldsKeys(d, res, names[..n]);
      assert forall k :: k in names <==> k in names[..n] || k == names[n] by {
        assert names == names[..n] + [names[n]];
      }
      match FieldToJson(res.fields, res.props, names[n])
      case Some(j) =>
        assert AddFields(d, res, names) == m[names[n] := JsonEntry(j)];
      case None =>
        assert AddFields(d, res, names) == m;
    }
  }

  /** The loop that adds the JSON of each named field to d. */
  method AddFieldsTo<V>(d: map<string, Entry>, res: Resource<V>, names: seq<string>) returns (r: map<string, Entry>)
    ensures r == AddFields(d, res, names)
  {
    r := d;
    for i := 0 to |names|
      invariant r == AddFields(d, res, names[..i])
    {
      assert names[..i + 1][..i] == names[..i];
      var value := FieldToJson(res.fields, res.props, names[i]);
      if value.Some? {
        r := r[names[i] := JsonEntry(value.value)];
      }
    }
    assert names[..|names|] == names;
  }

  /** The 'format' entry every representation starts from. */
  function FormatEntry(classId: string): Entry
  {
    JsonEntry(Single(map["value" := classId]))
  }

  /** `Rest_View.GET`: the dict that is serialised (`json.dumps` and the
      Last-Modified header are not part of this model). */
  method RestGet<V>(res: Resource<V>) returns (representation: map<string, Entry>)
    ensures representation == AddFields(map["format" := FormatEntry(res.classId)], res, res.fieldNames)
  {
    representation := AddFieldsTo(map["format" := FormatEntry(res.classId)], res, res.fieldNames);
  }

  /** The representation holds 'format' and exactly the fields with JSON,
      each under its own name; 'format' names the class unless a field of
      that name has JSON of its own. */
  lemma RestGetKeys<V>(res: Resource<V>)
    ensures var rep := AddFields(map["format" := FormatEntry(res.classId)], res, res.fieldNames);
            "format" in rep &&
            (forall k :: k in rep && k != "format" ==> k in res.fieldNames && FieldToJson(res.fields, res.props, k).Some?) &&
            (forall k :: k in res.fieldNames && FieldToJson(res.fields, res.props, k).Some? ==>
               k in rep && rep[k] == JsonEntry(FieldToJson(res.fields, res.props, k).value)) &&
            (!("format" in res.fieldNames && FieldToJson(res.fields, res.props, "format").Some?) ==>
               rep["format"] == FormatEntry(res.classId))
  {
    AddFieldsKeys(map["format" := FormatEntry(res.classId)], res, res.fieldNames);
  }

  /** The items `Rest_Query.GET` lists: for each resource found, its path
      under 'abspath' and the JSON of each requested field it has. */
  method QueryItems<V>(found: seq<Resource<V>>, fieldNames: seq<string>) returns (items: seq<map<string, Entry>>)
    ensures |items| == |found|
    ensures forall i :: 0 <= i < |found| ==> items[i] == AddFields(map["abspath" := PathEntry(found[i].abspath)], found[i], fieldNames)
  {
    items := [];
    for i := 0 to |found|
      invariant |items| == i
      invariant forall j :: 0 <= j < i ==> items[j] == AddFields(map["abspath" := PathEntry(found[j].abspath)], found[j], fieldNames)
    {
      var item := AddFieldsTo(map["abspath" := PathEntry(found[i].abspath)], found[i], fieldNames);
      items := items + [item];
    }
  }

  // ---------------------------------------------------------------------
  // Rest_Query.GET query building (rest.py:184-191)
  // ---------------------------------------------------------------------

  /** The query folded from the URL parameters: the subtree of the
      resource, ANDed with one phrase per parameter other than 'fields'. */
  function QueryFold(here: Path, params: seq<(string, string)>): Query
  {
    if |params| == 0 then BasePathQuery(here, None)
    else
      var n := |params| - 1;
      var q := QueryFold(here, params[..n]);
      if params[n].0 != "fields" then AndQuery([q, PhraseQuery(params[n].0, Word(params[n].1))]) else q
  }

  /** The loop of `Rest_Query.GET` that builds the query. */
  method RestQuery(here: Path, params: seq<(string, string)>) returns (query: Query)
    ensures query == QueryFold(here, params)
  {
    query := BasePathQuery(here, None);
    for i := 0 to |params|
      invariant query == QueryFold(here, params[..i])
    {
      assert params[..i + 1][..i] == params[..i];
      var (key, value) := params[i];
      if key != "fields" {
        query := AndQuery([query, PhraseQuery(key, Word(value))]);
      }
    }
    assert params[..|params|] == params;
  }

  /** A resource is found exactly when it lies below the resource asked
      and matches every URL parameter but 'fields'. */
  lemma {:induction false} QueryFoldHolds(here: Path, params: seq<(string, string)>, leaf: Query -> bool)
    ensures Holds(QueryFold(here, params), leaf) <==>
              (leaf(BasePathQuery(here, None)) &&
               forall i :: 0 <= i < |params| && params[i].0 != "fields" ==> leaf(PhraseQuery(params[i].0, Word(params[i].1))))
  {
    if |params| > 0 {
      var n := |params| - 1;
      var q := QueryFold(here, params[..n]);
      QueryFoldHolds(here, params[..n], leaf);
      assert forall i :: 0 <= i < n ==> params[..n][i] == params[i];
      var ph := PhraseQuery(params[n].0, Word(params[n].1));
      if params[n].0 != "fields" {
        assert QueryFold(here, params) == AndQuery([q, ph]);
        assert [q, ph][0] == q && [q, ph][1] == ph;
        assert Holds(ph, leaf) == leaf(ph);
        assert Holds(AndQuery([q, ph]), leaf) <==> Holds(q, leaf) && leaf(ph);
      } else {
        assert QueryFold(here, params) == q;
      }
    }
  }

  // ---------------------------------------------------------------------
  // Rest_View._modify_resource (rest.py:127-135)
  // ---------------------------------------------------------------------

  /** One change of a POST or PUT body: field name, raw value, parameters. */
  datatype Change = Change(name: string, value: Json, parameters: map<string, Json>)

  /** A `set_value(name, value, lang, **parameters)` call. */
  datatype SetValue<V> = SetValue(name: string, value: V, lang: Option<Json>, parameters: map<string, Json>)

  /** The call one change makes: the value decoded by the field's datatype
      (`decode`), 'lang' taken out of the parameters and passed as the
      language; a JSON null there is Python's None, as when it is absent. */
  function SetValueFor<V>(c: Change, decode: (string, Json) -> V): (r: SetValue<V>)
    ensures r.name == c.name && r.value == decode(c.name, c.value)
    ensures "lang" !in r.parameters
    ensures r.lang.Some? <==> "lang" in c.parameters && c.parameters["lang"] != Null
    ensures r.lang.Some? ==> r.lang.value == c.parameters["lang"]
    ensures forall k :: k in c.parameters && k != "lang" ==> k in r.parameters && r.parameters[k] == c.parameters[k]
    ensures r.parameters.Keys <= c.parameters.Keys
  {
    SetValue(c.name, decode(c.name, c.value),
             if "lang" in c.parameters && c.parameters["lang"] != Null then Some(c.parameters["lang"]) else None,
             c.parameters - {"lang"})
  }

  /** Nothing of the parameters is lost: putting the language back (null
      for None) where the change had one gives the parameters of the
      change. */
  lemma SetValueRestores<V>(c: Change, decode: (string, Json) -> V)
    ensures var r := SetValueFor(c, decode);
            (if "lang" in c.parameters then r.parameters["lang" := r.lang.GetOr(Null)] else r.parameters) == c.parameters
  {
  }

  /** The resource being written: the `set_value` calls it has received. */
  class Target<V> {
    var applied: seq<SetValue<V>>

    constructor ()
      ensures applied == []
    {
      applied := [];
    }

    /** `_modify_resource(self, changes)`: one call per change, in order. */
    method ModifyResource(changes: seq<Change>, decode: (string, Json) -> V)
      modifies this
      ensures applied == old(applied) + seq(|changes|, i requires 0 <= i < |changes| => SetValueFor(changes[i], decode))
    {
      ghost var before := applied;
      for i := 0 to |changes|
        invariant applied == before + seq(i, j requires 0 <= j < i => SetValueFor(changes[j], decode))
      {
        var c := changes[i];
        var lang := if "lang" in c.parameters && c.parameters["lang"] != Null then Some(c.parameters["lang"]) else None;
        var parameters := c.parameters - {"lang"};
        applied := applied + [SetValue(c.name, decode(c.name, c.value), lang, parameters)];
      }
    }
  }
}
