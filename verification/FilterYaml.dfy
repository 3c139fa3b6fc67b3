/** Group and host filtering of parsed YAML. */
module FilterYaml {
  import opened Common

  datatype Yaml =
    | YNull
    | YBool(b: bool)
    | YInt(n: int)
    | YStr(s: string)
    | YList(items: seq<Yaml>)
    | YDict(entries: map<string, Yaml>)

  datatype FilterError = SettingsSyntaxError

  /** The selection a filter call is made for; host is None when no host was passed. */
  datatype Target = Target(groups: set<string>, host: Option<string>)

  predicate Truthy(y: Yaml) {
    match y
    case YNull => false
    case YBool(b) => b
    case YInt(n) => n != 0
    case YStr(s) => s != ""
    case YList(items) => items != []
    case YDict(m) => m != map[]
  }

  predicate Selector(k: string) { k == "groups" || k == "devices" }

  /** Some listed group is among the groups, or the list names the host. */
  predicate Selects(k: string, v: Yaml, t: Target)
    requires v.YList?
  {
    if k == "groups" then exists i :: 0 <= i < |v.items| && v.items[i].YStr? && v.items[i].s in t.groups
    else (match t.host case Some(h) => YStr(h) case None => YNull) in v.items
  }

  /** A non-empty groups or devices list is present. */
  predicate Restricted(m: map<string, Yaml>) {
    exists k :: k in m && Selector(k) && Truthy(m[k])
  }

  predicate Matched(m: map<string, Yaml>, t: Target) {
    exists k :: k in m && Selector(k) && m[k].YList? && m[k].items != [] && Selects(k, m[k], t)
  }

  /** No selector above the cut-off is anything but a list or empty; otherwise the filter raises. */
  predicate WellTyped(y: Yaml, depth: nat)
    decreases depth, 0
  {
    if depth == 0 then true
    else match y
         case YList(items) => forall i :: 0 <= i < |items| ==> WellTyped(items[i], depth - 1)
         case YDict(m) => EntriesWellTyped(m, depth - 1)
         case _ => true
  }

  predicate EntriesWellTyped(m: map<string, Yaml>, depth: nat)
    decreases depth, 2
  {
    forall k :: k in m ==> EntryWellTyped(k, m[k], depth)
  }

  predicate EntryWellTyped(k: string, v: Yaml, depth: nat)
    decreases depth, 1
  {
    Truthy(v) ==> if Selector(k) then v.YList? else WellTyped(v, depth)
  }

  /** filter_yamldata on well-typed data; a dropped dictionary becomes YNull. */
  function Filter(y: Yaml, t: Target, depth: nat): Yaml
    decreases depth, 1
  {
    if depth == 0 then y
    else match y
         case YList(items) => YList(FilterItems(items, t, depth - 1))
         case YDict(m) => FilterMap(m, t, depth - 1)
         case _ => y
  }

  function FilterMap(m: map<string, Yaml>, t: Target, depth: nat): Yaml
    decreases depth, 4
  {
    if Restricted(m) && !Matched(m, t) then YNull else YDict(FilterEntries(m, t, depth))
  }

  function FilterItems(items: seq<Yaml>, t: Target, depth: nat): seq<Yaml>
    decreases depth, 2, |items|
  {
    if items == [] then []
    else
      var f := Filter(items[0], t, depth);
      (if Truthy(f) then [f] else []) + FilterItems(items[1..], t, depth)
  }

  predicate Kept(k: string, v: Yaml, t: Target, depth: nat)
    decreases depth, 2
  {
    !Truthy(v) || Selector(k) || Truthy(Filter(v, t, depth))
  }

  function FilterValue(k: string, v: Yaml, t: Target, depth: nat): Yaml
    decreases depth, 2
  {
    if !Truthy(v) || Selector(k) then v else Filter(v, t, depth)
  }

  function FilterEntries(m: map<string, Yaml>, t: Target, depth: nat): map<string, Yaml>
    decreases depth, 3
  {
    map k | k in m && Kept(k, m[k], t, depth) :: FilterValue(k, m[k], t, depth)
  }

  // ------------------------------------------------------------------ the method

  method FilterYamldata(data: Yaml, t: Target, recdepth: nat) returns (r: Result<Yaml, FilterError>)
    ensures r == if WellTyped(data, recdepth) then Ok(Filter(data, t, recdepth)) else Err(SettingsSyntaxError)
    decreases recdepth, 1
  {
    if recdepth < 1 {
      return Ok(data);
    }
    match data
    case YList(items) =>
      r := FilterList(items, t, recdepth - 1);
    case YDict(m) =>
      r := FilterDict(m, t, recdepth - 1);
    case _ =>
      return Ok(data);
  }

  /** The loop over a list. */
  method FilterList(items: seq<Yaml>, t: Target, depth: nat) returns (r: Result<Yaml, FilterError>)
    ensures r == if WellTyped(YList(items), depth + 1) then Ok(YList(FilterItems(items, t, depth)))
                 else Err(SettingsSyntaxError)
    decreases depth, 2
  {
    var ret: seq<Yaml> := [];
    for i := 0 to |items|
      invariant forall j :: 0 <= j < i ==> WellTyped(items[j], depth)
      invariant FilterItems(items, t, depth) == ret + FilterItems(items[i..], t, depth)
    {
      var item := FilterYamldata(items[i], t, depth);
      if item.Err? {
        assert !WellTyped(items[i], depth);
        return item;
      }
      if Truthy(item.value) { ret := ret + [item.value]; }
      assert items[i..][1..] == items[i + 1..];
    }
    assert items[|items|..] == [] && FilterItems(items, t, depth) == ret;
    return Ok(YList(ret));
  }

  /** The loop over a dictionary. */
  method FilterDict(m: map<string, Yaml>, t: Target, depth: nat) returns (r: Result<Yaml, FilterError>)
    ensures r == if EntriesWellTyped(m, depth) then Ok(FilterMap(m, t, depth)) else Err(SettingsSyntaxError)
    decreases depth, 2
  {
    var ret: map<string, Yaml> := map[];
    var todo := m.Keys;
    var restricted, matched := false, false;
    while todo != {}
      invariant todo <= m.Keys
      invariant forall k :: k in m && k !in todo ==> EntryWellTyped(k, m[k], depth)
      invariant forall k :: k in ret <==> k in m && k !in todo && Kept(k, m[k], t, depth)
      invariant forall k :: k in ret ==> ret[k] == FilterValue(k, m[k], t, depth)
      invariant restricted <==> exists k :: k in m && k !in todo && Selector(k) && Truthy(m[k])
      invariant matched <==>
                exists k ::
                  k in m && k !in todo && Selector(k) && m[k].YList? && m[k].items != [] && Selects(k, m[k], t)
      decreases todo
    {
      var k :| k in todo;
      var v := m[k];
      todo := todo - {k};
      if !Truthy(v) {
        ret := ret[k := v];
      } else if Selector(k) {
        if !v.YList? {
          assert !EntryWellTyped(k, m[k], depth);
          return Err(SettingsSyntaxError);
        }
        restricted := true;
        ret := ret[k := v];
        if Selects(k, v, t) { matched := true; }
      } else {
        var f := FilterYamldata(v, t, depth);
        if f.Err? {
          assert !EntryWellTyped(k, m[k], depth);
          return f;
        }
        if Truthy(f.value) { ret := ret[k := f.value]; }
      }
    }
    if restricted && !matched { return Ok(YNull); }
    assert ret == FilterEntries(m, t, depth);
    return Ok(YDict(ret));
  }

  // ------------------------------------------------------------------- properties

  /** Every dictionary above the cut-off is unrestricted or matched, and nothing is left to prune. */
  predicate Clean(y: Yaml, t: Target, depth: nat)
    decreases depth
  {
    if depth == 0 then true
    else match y
         case YList(items) =>
           forall i :: 0 <= i < |items| ==> Truthy(items[i]) && Clean(items[i], t, depth - 1)
         case YDict(m) =>
           && (Restricted(m) ==> Matched(m, t))
           && forall k :: k in m && Truthy(m[k]) && !Selector(k) ==> Clean(m[k], t, depth - 1)
         case _ => true
  }

  lemma EntryAt(m: map<string, Yaml>, t: Target, depth: nat, k: string)
    requires k in m
    ensures var f := FilterEntries(m, t, depth);
            if !Truthy(m[k]) || Selector(k) then k in f && f[k] == m[k]
            else if Truthy(Filter(m[k], t, depth)) then k in f && f[k] == Filter(m[k], t, depth)
            else k !in f
  {
    assert Kept(k, m[k], t, depth) <==> k in FilterEntries(m, t, depth);
    if k in FilterEntries(m, t, depth) {
      assert FilterEntries(m, t, depth)[k] == FilterValue(k, m[k], t, depth);
    }
  }

  lemma {:induction false} FilterItemsAt(items: seq<Yaml>, t: Target, depth: nat, i: nat)
    requires i < |FilterItems(items, t, depth)|
    ensures Truthy(FilterItems(items, t, depth)[i])
    ensures exists j :: 0 <= j < |items| && FilterItems(items, t, depth)[i] == Filter(items[j], t, depth)
    decreases |items|
  {
    if Truthy(Filter(items[0], t, depth)) {
      if i > 0 { FilterItemsAt(items[1..], t, depth, i - 1); }
    } else {
      FilterItemsAt(items[1..], t, depth, i);
    }
  }

  /** at lists, in order, exactly the positions whose items have a filtered form that is not empty. */
  ghost predicate Positions(items: seq<Yaml>, t: Target, depth: nat, at: seq<nat>) {
    && (forall i, j :: 0 <= i < j < |at| ==> at[i] < at[j])
    && (forall i :: 0 <= i < |at| ==> at[i] < |items|)
    && (forall k: nat :: k < |items| ==> (k in at <==> Truthy(Filter(items[k], t, depth))))
  }

  /** The list of the filtered items at these positions. */
  ghost predicate AreAt(ys: seq<Yaml>, items: seq<Yaml>, t: Target, depth: nat, at: seq<nat>) {
    && |ys| == |at|
    && forall i :: 0 <= i < |at| ==> at[i] < |items| && ys[i] == Filter(items[at[i]], t, depth)
  }

  /** The positions of the rest one item further on, after that of the first item if it is kept. */
  function OneFurther(first: bool, rest: seq<nat>): seq<nat> {
    (if first then [0] else []) + seq(|rest|, i requires 0 <= i < |rest| => rest[i] + 1)
  }

  lemma OneFurtherIs(first: bool, rest: seq<nat>)
    ensures var (at, shift) := (OneFurther(first, rest), if first then 1 else 0);
            && |at| == |rest| + shift && (first ==> at[0] == 0)
            && forall i :: 0 <= i < |rest| ==> at[i + shift] == rest[i] + 1
  {
  }

  lemma OneFurtherHas(first: bool, rest: seq<nat>, k: nat)
    ensures k in OneFurther(first, rest) <==> if k == 0 then first else k - 1 in rest
  {
    var at, shift := OneFurther(first, rest), if first then 1 else 0;
    OneFurtherIs(first, rest);
    if k > 0 && k - 1 in rest {
      var i :| 0 <= i < |rest| && rest[i] == k - 1;
      assert at[i + shift] == k;
    }
    if k in at {
      var i :| 0 <= i < |at| && at[i] == k;
      if i >= shift { assert at[i - shift + shift] == rest[i - shift] + 1; }
    }
  }

  lemma OneFurtherRises(first: bool, rest: seq<nat>, n: nat)
    requires (forall i, j :: 0 <= i < j < |rest| ==> rest[i] < rest[j]) && forall i :: 0 <= i < |rest| ==> rest[i] < n
    ensures var at := OneFurther(first, rest);
            && (forall i, j :: 0 <= i < j < |at| ==> at[i] < at[j])
            && forall i :: 0 <= i < |at| ==> at[i] < n + 1
  {
  }

  lemma LaterPositions(items: seq<Yaml>, t: Target, depth: nat, rest: seq<nat>)
    requires items != [] && Positions(items[1..], t, depth, rest)
    ensures Positions(items, t, depth, OneFurther(Truthy(Filter(items[0], t, depth)), rest))
  {
    var first := Truthy(Filter(items[0], t, depth));
    OneFurtherRises(first, rest, |items| - 1);
    forall k: nat | k < |items| ensures k in OneFurther(first, rest) <==> Truthy(Filter(items[k], t, depth)) {
      OneFurtherHas(first, rest, k);
      if k > 0 { assert items[k] == items[1..][k - 1]; }
    }
  }

  lemma LaterItem(items: seq<Yaml>, t: Target, depth: nat, ys: seq<Yaml>, rest: seq<nat>, i: nat)
    requires items != [] && AreAt(ys, items[1..], t, depth, rest) && i < |rest|
    ensures rest[i] + 1 < |items| && ys[i] == Filter(items[rest[i] + 1], t, depth)
  {
    assert items[rest[i] + 1] == items[1..][rest[i]];
  }

  lemma LaterItems(items: seq<Yaml>, t: Target, depth: nat, ys: seq<Yaml>, rest: seq<nat>)
    requires items != [] && AreAt(ys, items[1..], t, depth, rest)
    ensures var f := Filter(items[0], t, depth);
            AreAt((if Truthy(f) then [f] else []) + ys, items, t, depth, OneFurther(Truthy(f), rest))
  {
    var f := Filter(items[0], t, depth);
    OneFurtherIs(Truthy(f), rest);
    forall i | 0 <= i < |rest| { LaterItem(items, t, depth, ys, rest, i); }
  }

  /**
   The filtered list has each item whose own filtered form is not empty, as often as it occurs and
   in the order of the list, and nothing else.
   */
  lemma {:induction false} ItemsKept(items: seq<Yaml>, t: Target, depth: nat) returns (at: seq<nat>)
    ensures Positions(items, t, depth, at) && AreAt(FilterItems(items, t, depth), items, t, depth, at)
    decreases |items|
  {
    at := [];
    if items != [] {
      var rest := ItemsKept(items[1..], t, depth);
      at := OneFurther(Truthy(Filter(items[0], t, depth)), rest);
      LaterPositions(items, t, depth, rest);
      LaterItems(items, t, depth, FilterItems(items[1..], t, depth), rest);
    }
  }

  /**
   A dictionary above the cut-off stays unless it restricts itself to groups or devices: then one of
   the groups it lists has to be among those of the host, or its devices have to name the host.
   */
  lemma DictStaysIff(m: map<string, Yaml>, t: Target, depth: nat)
    requires depth > 0
    ensures Filter(YDict(m), t, depth).YNull? || Filter(YDict(m), t, depth) == YDict(FilterEntries(m, t, depth - 1))
    ensures Filter(YDict(m), t, depth).YDict? <==>
            || (("groups" in m ==> IsEmpty(m["groups"])) && ("devices" in m ==> IsEmpty(m["devices"])))
            || (&& "groups" in m && m["groups"].YList?
                && exists g :: g in t.groups && YStr(g) in m["groups"].items)
            || (&& "devices" in m && m["devices"].YList?
                && (if t.host.Some? then YStr(t.host.value) else YNull) in m["devices"].items)
  {
    if g :| "groups" in m && m["groups"].YList? && g in t.groups && YStr(g) in m["groups"].items {
      var i :| 0 <= i < |m["groups"].items| && m["groups"].items[i] == YStr(g);
      assert Selects("groups", m["groups"], t);
    }
    assert Selector("groups") && Selector("devices") && forall k :: Selector(k) ==> k == "groups" || k == "devices";
  }

  /** What counts as empty: null, false, zero, and strings, lists and dictionaries without anything in them. */
  predicate IsEmpty(y: Yaml) {
    y in {YNull, YBool(false), YInt(0), YStr(""), YList([]), YDict(map[])}
  }

  lemma TruthyIff(y: Yaml)
    ensures Truthy(y) <==> !IsEmpty(y)
  {
  }

  /**
   Inside a dictionary that stays, selectors and empty values are kept as they are; any other value
   is kept in its filtered form, or dropped when that is empty.
   */
  lemma ValueKeptIff(m: map<string, Yaml>, t: Target, depth: nat, k: string)
    requires k in m
    ensures var f := FilterEntries(m, t, depth);
            if k == "groups" || k == "devices" || IsEmpty(m[k]) then k in f && f[k] == m[k]
            else if IsEmpty(Filter(m[k], t, depth)) then k !in f
            else k in f && f[k] == Filter(m[k], t, depth)
    ensures FilterEntries(m, t, depth).Keys <= m.Keys
  {
    EntryAt(m, t, depth, k);
    TruthyIff(m[k]);
    TruthyIff(Filter(m[k], t, depth));
  }

  /** y inside n dictionaries. */
  function Nested(n: nat, y: Yaml): Yaml { if n == 0 then y else YDict(map["k" := Nested(n - 1, y)]) }

  lemma NestedIsTruthy(n: nat, y: Yaml)
    requires Truthy(y)
    ensures Truthy(Nested(n, y))
  {
    if n > 0 { assert "k" in map["k" := Nested(n - 1, y)]; }
  }

  lemma AroundOne(y: Yaml, t: Target, depth: nat)
    requires Truthy(y)
    ensures Filter(YDict(map["k" := y]), t, depth + 1)
            == YDict(if Truthy(Filter(y, t, depth)) then map["k" := Filter(y, t, depth)] else map[])
  {
    var m := map["k" := y];
    assert m["k"] == y && !Selector("k");
    EntryAt(m, t, depth, "k");
    assert !Restricted(m);
  }

  /** Dictionaries around it do not keep data from being filtered, as long as the cut-off is not reached. */
  lemma {:induction false} FilterReaches(n: nat, y: Yaml, t: Target, depth: nat)
    requires 1 <= n <= depth && Truthy(y)
    ensures Filter(Nested(n, y), t, depth)
            == if Truthy(Filter(y, t, depth - n)) then Nested(n, Filter(y, t, depth - n)) else YDict(map[])
    decreases n
  {
    AroundOne(Nested(n - 1, y), t, depth - 1) by { NestedIsTruthy(n - 1, y); }
    if n > 1 {
      FilterReaches(n - 1, y, t, depth - 1);
      if Truthy(Filter(y, t, depth - n)) { NestedIsTruthy(n - 1, Filter(y, t, depth - n)); }
    }
  }

  // ------------------------------------------------------------------- when the filter raises

  datatype Move = Item(i: nat) | Key(k: string)

  /** What the filter comes to along a path; it does not go into selectors. */
  function At(y: Yaml, path: seq<Move>): Option<Yaml>
    decreases |path|
  {
    if path == [] then Some(y)
    else match path[0]
         case Item(i) => if y.YList? && i < |y.items| then At(y.items[i], path[1..]) else None
         case Key(k) =>
           if y.YDict? && k in y.entries && k != "groups" && k != "devices" then At(y.entries[k], path[1..]) else None
  }

  /** A dictionary whose groups or devices are neither empty nor a list. */
  predicate Misused(y: Yaml) {
    && y.YDict?
    && (|| ("groups" in y.entries && !IsEmpty(y.entries["groups"]) && !y.entries["groups"].YList?)
        || ("devices" in y.entries && !IsEmpty(y.entries["devices"]) && !y.entries["devices"].YList?))
  }

  ghost predicate MisusedAt(y: Yaml, path: seq<Move>, depth: nat) {
    |path| < depth && At(y, path).Some? && Misused(At(y, path).value)
  }

  lemma MisuseIsIllTyped(y: Yaml, depth: nat)
    requires depth > 0 && Misused(y)
    ensures !WellTyped(y, depth)
  {
    var k := if "groups" in y.entries && !IsEmpty(y.entries["groups"]) && !y.entries["groups"].YList?
             then "groups" else "devices";
    TruthyIff(y.entries[k]);
    assert Selector(k) && !EntryWellTyped(k, y.entries[k], depth - 1);
  }

  lemma {:induction false} MisuseRaises(y: Yaml, path: seq<Move>, depth: nat)
    requires MisusedAt(y, path, depth)
    ensures !WellTyped(y, depth)
    decreases |path|
  {
    if path == [] {
      MisuseIsIllTyped(y, depth);
    } else {
      match path[0]
      case Item(i) => MisuseRaises(y.items[i], path[1..], depth - 1);
      case Key(k) =>
        MisuseRaises(y.entries[k], path[1..], depth - 1);
        assert !EntryWellTyped(k, y.entries[k], depth - 1);
    }
  }

  lemma {:induction false} IllTypedIsMisuse(y: Yaml, depth: nat) returns (path: seq<Move>)
    requires !WellTyped(y, depth)
    ensures MisusedAt(y, path, depth)
    decreases depth
  {
    if y.YList? {
      var i :| 0 <= i < |y.items| && !WellTyped(y.items[i], depth - 1);
      var rest := IllTypedIsMisuse(y.items[i], depth - 1);
      path := [Item(i)] + rest;
    } else {
      var k :| k in y.entries && !EntryWellTyped(k, y.entries[k], depth - 1);
      TruthyIff(y.entries[k]);
      if Selector(k) {
        path := [];
      } else {
        var rest := IllTypedIsMisuse(y.entries[k], depth - 1);
        path := [Key(k)] + rest;
      }
    }
  }

  /** The filter raises exactly when, above the cut-off, some groups or devices are neither empty nor a list. */
  lemma RaisesIff(y: Yaml, depth: nat)
    ensures !WellTyped(y, depth) <==> exists path :: MisusedAt(y, path, depth)
  {
    if !WellTyped(y, depth) {
      var path := IllTypedIsMisuse(y, depth);
    } else if path :| MisusedAt(y, path, depth) {
      MisuseRaises(y, path, depth);
    }
  }

  lemma SelectorsSurvive(m: map<string, Yaml>, t: Target, depth: nat)
    ensures Restricted(FilterEntries(m, t, depth)) <==> Restricted(m)
    ensures Matched(FilterEntries(m, t, depth), t) <==> Matched(m, t)
  {
    var f := FilterEntries(m, t, depth);
    forall k | k in m { EntryAt(m, t, depth, k); }
  }

  lemma {:induction false} FilterIsClean(y: Yaml, t: Target, depth: nat)
    ensures Clean(Filter(y, t, depth), t, depth)
    decreases depth
  {
    if depth > 0 {
      match y
      case YList(items) =>
        var f := FilterItems(items, t, depth - 1);
        forall i | 0 <= i < |f| ensures Truthy(f[i]) && Clean(f[i], t, depth - 1) {
          FilterItemsAt(items, t, depth - 1, i);
          var j :| 0 <= j < |items| && f[i] == Filter(items[j], t, depth - 1);
          FilterIsClean(items[j], t, depth - 1);
        }
      case YDict(m) =>
        SelectorsSurvive(m, t, depth - 1);
        var f := FilterEntries(m, t, depth - 1);
        forall k | k in f && Truthy(f[k]) && !Selector(k) ensures Clean(f[k], t, depth - 1) {
          EntryAt(m, t, depth - 1, k);
          FilterIsClean(m[k], t, depth - 1);
        }
      case _ =>
    }
  }

  lemma {:induction false} CleanItemsStay(items: seq<Yaml>, t: Target, depth: nat)
    ensures |FilterItems(items, t, depth)| <= |items|
    ensures (forall i :: 0 <= i < |items| ==> Truthy(items[i]) && Filter(items[i], t, depth) == items[i])
            <==> FilterItems(items, t, depth) == items
    decreases |items|
  {
    if items != [] {
      CleanItemsStay(items[1..], t, depth);
      var f, rest := Filter(items[0], t, depth), FilterItems(items[1..], t, depth);
      if Truthy(f) {
        assert FilterItems(items, t, depth) == [f] + rest;
        assert items == [items[0]] + items[1..];
        assert FilterItems(items, t, depth) == items <==> f == items[0] && rest == items[1..];
      }
    }
  }

  /** The filter leaves exactly the clean data as it is. */
  lemma {:induction false} FixedIffClean(y: Yaml, t: Target, depth: nat)
    ensures Filter(y, t, depth) == y <==> Clean(y, t, depth)
    decreases depth
  {
    if depth > 0 {
      match y
      case YList(items) =>
        forall i | 0 <= i < |items| { FixedIffClean(items[i], t, depth - 1); }
        CleanItemsStay(items, t, depth - 1);
      case YDict(m) =>
        var f := FilterEntries(m, t, depth - 1);
        forall k | k in m && Truthy(m[k]) && !Selector(k)
          ensures Clean(m[k], t, depth - 1) <==> k in f && f[k] == m[k]
        {
          EntryAt(m, t, depth - 1, k);
          FixedIffClean(m[k], t, depth - 1);
        }
        forall k | k in m && (!Truthy(m[k]) || Selector(k)) ensures k in f && f[k] == m[k] {
          EntryAt(m, t, depth - 1, k);
        }
        assert f == m <==> forall k :: k in m ==> k in f && f[k] == m[k];
      case _ =>
    }
  }

  lemma FilterIsIdempotent(y: Yaml, t: Target, depth: nat)
    ensures Filter(Filter(y, t, depth), t, depth) == Filter(y, t, depth)
  {
    FilterIsClean(y, t, depth);
    FixedIffClean(Filter(y, t, depth), t, depth);
  }

  // -------------------------------------------------------- the sub-structure order

  /** a is what remains of b after dropping list items and dictionary keys at any depth. */
  predicate Sub(a: Yaml, b: Yaml)
    decreases a, 1
  {
    || a == b
    || a.YNull?
    || (a.YList? && b.YList? && SubItems(a.items, b.items))
    || (a.YDict? && b.YDict? && forall k :: k in a.entries ==> k in b.entries && Sub(a.entries[k], b.entries[k]))
  }

  predicate SubItems(xs: seq<Yaml>, ys: seq<Yaml>)
    decreases xs, 0, |ys|
  {
    || xs == []
    || (ys != [] && ((Sub(xs[0], ys[0]) && SubItems(xs[1..], ys[1..])) || SubItems(xs, ys[1..])))
  }

  /** The filter only removes. */
  lemma {:induction false} FilterShrinks(y: Yaml, t: Target, depth: nat)
    ensures Sub(Filter(y, t, depth), y)
    decreases depth, 1
  {
    if depth > 0 {
      match y
      case YList(items) => FilterItemsShrink(items, t, depth - 1);
      case YDict(m) =>
        var f := FilterEntries(m, t, depth - 1);
        forall k | k in f ensures Sub(f[k], m[k]) {
          EntryAt(m, t, depth - 1, k);
          FilterShrinks(m[k], t, depth - 1);
        }
        assert Sub(YDict(f), y);
      case _ =>
    }
  }

  lemma {:induction false} FilterItemsShrink(items: seq<Yaml>, t: Target, depth: nat)
    ensures SubItems(FilterItems(items, t, depth), items)
    decreases depth, 2, |items|
  {
    if items != [] {
      FilterShrinks(items[0], t, depth);
      FilterItemsShrink(items[1..], t, depth);
      var f, rest := Filter(items[0], t, depth), FilterItems(items[1..], t, depth);
      if Truthy(f) { assert ([f] + rest)[1..] == rest; } else { assert FilterItems(items, t, depth) == rest; }
    }
  }

  lemma TruthyGrows(a: Yaml, b: Yaml)
    requires Sub(a, b) && Truthy(a)
    ensures Truthy(b)
  {
    if a.YDict? && b.YDict? && a != b {
      var k :| k in a.entries;
      assert k in b.entries;
    }
  }

  /** More groups never filter out more. */
  lemma {:induction false} MoreGroupsKeepMore(y: Yaml, t: Target, u: Target, depth: nat)
    requires t.groups <= u.groups && t.host == u.host
    ensures Sub(Filter(y, t, depth), Filter(y, u, depth))
    decreases depth, 1
  {
    if depth > 0 {
      match y
      case YList(items) => MoreGroupsKeepMoreItems(items, t, u, depth - 1);
      case YDict(m) =>
        if Restricted(m) && !Matched(m, t) {
        } else {
          if Matched(m, t) {
            var k :| k in m && Selector(k) && m[k].YList? && m[k].items != [] && Selects(k, m[k], t);
            assert Selects(k, m[k], u);
          }
          var a, b := FilterEntries(m, t, depth - 1), FilterEntries(m, u, depth - 1);
          forall k | k in a ensures k in b && Sub(a[k], b[k]) {
            EntryAt(m, t, depth - 1, k);
            EntryAt(m, u, depth - 1, k);
            MoreGroupsKeepMore(m[k], t, u, depth - 1);
            if Truthy(m[k]) && !Selector(k) {
              TruthyGrows(Filter(m[k], t, depth - 1), Filter(m[k], u, depth - 1));
            }
          }
        }
      case _ =>
    }
  }

  lemma {:induction false} MoreGroupsKeepMoreItems(items: seq<Yaml>, t: Target, u: Target, depth: nat)
    requires t.groups <= u.groups && t.host == u.host
    ensures SubItems(FilterItems(items, t, depth), FilterItems(items, u, depth))
    decreases depth, 2, |items|
  {
    if items != [] {
      var a, b := Filter(items[0], t, depth), Filter(items[0], u, depth);
      var ra, rb := FilterItems(items[1..], t, depth), FilterItems(items[1..], u, depth);
      MoreGroupsKeepMore(items[0], t, u, depth);
      MoreGroupsKeepMoreItems(items[1..], t, u, depth);
      if Truthy(a) {
        TruthyGrows(a, b);
        assert ([a] + ra)[1..] == ra && ([b] + rb)[1..] == rb;
      } else if Truthy(b) {
        assert ([b] + rb)[1..] == rb && FilterItems(items, t, depth) == ra;
      } else {
        assert FilterItems(items, t, depth) == ra && FilterItems(items, u, depth) == rb;
      }
    }
  }
}
