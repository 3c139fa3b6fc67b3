/** Merging settings layers while recording which layer a value came from. */
module MergeDict {
  import opened Common

  datatype Layered<V> = Layered(data: map<string, V>, origin: map<string, string>)

  datatype MergeError = KeyError

  /** Override wins; every key names the layer its value was taken from. */
  function Merge<V>(base: Layered<V>, override: map<string, V>, name: string): Layered<V>
    requires base.data.Keys <= base.origin.Keys + override.Keys
  {
    Layered(base.data + override,
            map k | k in base.data.Keys + override.Keys :: if k in override then name else base.origin[k])
  }

  method MergeDictOrigin<V>(base: map<string, V>, override: map<string, V>, prev: map<string, string>, name: string)
    returns (r: Result<Layered<V>, MergeError>)
    ensures r.Ok? <==> base.Keys <= prev.Keys + override.Keys
    ensures r.Ok? ==> r.value == Merge(Layered(base, prev), override, name)
  {
    var data: map<string, V> := map[];
    var metadata: map<string, string> := map[];
    var todo := base.Keys;
    while todo != {}
      invariant todo <= base.Keys
      invariant base.Keys - todo <= prev.Keys + override.Keys
      invariant data.Keys == metadata.Keys == base.Keys - todo
      invariant forall k :: k in data ==> data[k] == if k in override then override[k] else base[k]
      invariant forall k :: k in data ==>
                              if k in override then metadata[k] == name else k in prev && metadata[k] == prev[k]
      decreases todo
    {
      var k :| k in todo;
      todo := todo - {k};
      if k in override {
        data, metadata := data[k := override[k]], metadata[k := name];
      } else {
        if k !in prev { return Err(KeyError); }
        data, metadata := data[k := base[k]], metadata[k := prev[k]];
      }
    }
    todo := override.Keys;
    while todo != {}
      invariant todo <= override.Keys
      invariant data.Keys == metadata.Keys == base.Keys + (override.Keys - todo)
      invariant forall k :: k in data ==> data[k] == if k in override then override[k] else base[k]
      invariant forall k :: k in data ==>
                              if k in override then metadata[k] == name else k in prev && metadata[k] == prev[k]
      decreases todo
    {
      var k :| k in todo;
      todo := todo - {k};
      if k !in data {
        data, metadata := data[k := override[k]], metadata[k := name];
      }
    }
    assert data == base + override;
    return Ok(Layered(data, metadata));
  }

  datatype Layer<V> = Layer(name: string, values: map<string, V>)

  ghost predicate Complete<V>(l: Layered<V>) { l.data.Keys == l.origin.Keys }

  function Fold<V>(start: Layered<V>, layers: seq<Layer<V>>): (l: Layered<V>)
    requires Complete(start)
    ensures Complete(l)
    decreases |layers|
  {
    if layers == [] then start
    else Fold(Merge(start, layers[0].values, layers[0].name), layers[1..])
  }

  /** The last layer that defines a key decides both its value and its origin. */
  lemma {:induction false} LastLayerWins<V>(start: Layered<V>, layers: seq<Layer<V>>, k: string, i: nat)
    requires Complete(start) && i <= |layers|
    requires i < |layers| ==> k in layers[i].values
    requires forall j :: i < j < |layers| ==> k !in layers[j].values
    requires i == |layers| ==> forall j :: 0 <= j < |layers| ==> k !in layers[j].values
    ensures var l := Fold(start, layers);
            if i < |layers| then k in l.data && l.data[k] == layers[i].values[k] && l.origin[k] == layers[i].name
            else (k in l.data <==> k in start.data)
                 && (k in l.data ==> l.data[k] == start.data[k] && l.origin[k] == start.origin[k])
    decreases |layers|
  {
    if layers != [] {
      var next := Merge(start, layers[0].values, layers[0].name);
      if i == 0 {
        LastLayerWins(next, layers[1..], k, |layers| - 1);
      } else {
        LastLayerWins(next, layers[1..], k, i - 1);
      }
    }
  }
}
