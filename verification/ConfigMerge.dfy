/**
 * How a runtime group's configuration is changed by a delta (src/control.rs): a recursive merge, and the loop
 * that reads, merges and writes back under a revision while other writers change the configuration too.
 */
module ConfigMerge {
  import opened Wrappers
  import opened Json

  // ---------------------------------------------------------------------------------------------
  // The merge
  // ---------------------------------------------------------------------------------------------

  /** The delta's values laid over the base: objects entry by entry, anything else replaced. */
  function Merge(base: Json, delta: Json): Json
    decreases delta
  {
    if base.Object? && delta.Object? then
      Object(map key | key in base.fields.Keys + delta.fields.Keys ::
               if key !in delta.fields then base.fields[key]
               else if key !in base.fields then delta.fields[key]
               else Merge(base.fields[key], delta.fields[key]))
    else delta
  }

  /** A merge of objects has the keys of both. */
  lemma MergeEntries(base: Json, delta: Json)
    requires base.Object? && delta.Object?
    ensures Merge(base, delta).Object? && Merge(base, delta).fields.Keys == base.fields.Keys + delta.fields.Keys
    ensures forall key <- base.fields :: key !in delta.fields ==> Merge(base, delta).fields[key] == base.fields[key]
    ensures forall key <- delta.fields ::
              Merge(base, delta).fields[key] ==
              if key in base.fields then Merge(base.fields[key], delta.fields[key]) else delta.fields[key]
  {}

  method MergeRuntimeConfig(base: Json, delta: Json) returns (merged: Json)
    ensures merged == Merge(base, delta)
    decreases delta
  {
    if !base.Object? || !delta.Object? {
      return delta;
    }
    MergeEntries(base, delta);
    hide Merge, Laid;
    var result, keys := base.fields, delta.fields.Keys;
    while keys != {}
      invariant keys <= delta.fields.Keys && Laid(base, delta, keys, result)
      decreases |keys|
    {
      var key :| key in keys;
      var entry := delta.fields[key];
      if key in base.fields {
        entry := MergeRuntimeConfig(base.fields[key], entry);
      }
      LayOneMore(base, delta, keys, result, key);
      keys := keys - {key};
      result := result[key := entry];
    }
    LaidCompletely(base, delta, result);
    merged := Object(result);
  }

  /** What the merge looks like while `keys` of the delta are still to be laid over the base. */
  ghost predicate Laid(base: Json, delta: Json, keys: set<string>, result: Fields)
    requires base.Object? && delta.Object?
  {
    && result.Keys == base.fields.Keys + (delta.fields.Keys - keys)
    && forall key <- result :: result[key] == if key in delta.fields && key !in keys then Merge(base, delta).fields[key]
                                              else if key in base.fields then base.fields[key] else Null
  }

  lemma LayOneMore(base: Json, delta: Json, keys: set<string>, result: Fields, key: string)
    requires base.Object? && delta.Object? && Laid(base, delta, keys, result)
    requires key in keys && keys <= delta.fields.Keys
    ensures var entry := if key in base.fields then Merge(base.fields[key], delta.fields[key]) else delta.fields[key];
      Laid(base, delta, keys - {key}, result[key := entry])
  {
    MergeEntries(base, delta);
    hide Merge;
  }

  lemma LaidCompletely(base: Json, delta: Json, result: Fields)
    requires base.Object? && delta.Object? && Laid(base, delta, {}, result)
    ensures Object(result) == Merge(base, delta)
  {
    MergeEntries(base, delta);
    hide Merge;
    assert result == Merge(base, delta).fields;
  }

  /** What stands at a path of keys. */
  function At(value: Json, path: seq<string>): Option<Json>
  {
    if path == [] then Some(value)
    else if value.Object? && path[0] in value.fields then At(value.fields[path[0]], path[1..])
    else None
  }

  /** Whether a value that is no object stands above the path, so that nothing can stand at it. */
  predicate Cuts(value: Json, path: seq<string>)
  {
    path != [] && (value.Object? ==> path[0] in value.fields && Cuts(value.fields[path[0]], path[1..]))
  }

  /**
   * What a merge leaves at every path. A path the delta reaches holds the delta's value, merged into the base's
   * where it had one; a path below one of the delta's plain values is gone; every other path is the base's own.
   */
  lemma {:induction false} MergeAt(base: Json, delta: Json, path: seq<string>)
    ensures At(Merge(base, delta), path) ==
            if At(delta, path).Some? then
              Some(if At(base, path).Some? then Merge(At(base, path).value, At(delta, path).value)
                   else At(delta, path).value)
            else if Cuts(delta, path) then None
            else At(base, path)
    decreases |path|
  {
    if path != [] && base.Object? && delta.Object? && path[0] in base.fields && path[0] in delta.fields {
      MergeAt(base.fields[path[0]], delta.fields[path[0]], path[1..]);
    }
    if path != [] && !delta.Object? {
      assert Cuts(delta, path);
    }
    if path != [] && !base.Object? {
      NothingIsAtACutPath(delta, path);
    }
    if path != [] && base.Object? && delta.Object? && path[0] !in base.fields && path[0] in delta.fields {
      NothingIsAtACutPath(delta, path);
    }
  }

  lemma {:induction false} NothingIsAtACutPath(value: Json, path: seq<string>)
    ensures Cuts(value, path) ==> At(value, path) == None
    decreases |path|
  {
    if path != [] && value.Object? && path[0] in value.fields {
      NothingIsAtACutPath(value.fields[path[0]], path[1..]);
    }
  }

  /** A plain value in the delta is what stands there afterwards. */
  lemma PlainValuesWin(base: Json, delta: Json, path: seq<string>)
    requires At(delta, path).Some? && !At(delta, path).value.Object?
    ensures At(Merge(base, delta), path) == At(delta, path)
  {
    MergeAt(base, delta, path);
  }

  /** Applying the same delta again changes nothing. */
  lemma {:induction false} MergeIsIdempotent(base: Json, delta: Json)
    ensures Merge(Merge(base, delta), delta) == Merge(base, delta)
    decreases delta
  {
    MergeWithItself(delta);
    if base.Object? && delta.Object? {
      var once := Merge(base, delta);
      forall key | key in delta.fields
        ensures Merge(once.fields[key], delta.fields[key]) == once.fields[key]
      {
        MergeWithItself(delta.fields[key]);
        if key in base.fields {
          MergeIsIdempotent(base.fields[key], delta.fields[key]);
        }
      }
      assert Merge(once, delta).fields == once.fields;
    }
  }

  lemma {:induction false} MergeWithItself(value: Json)
    ensures Merge(value, value) == value
    decreases value
  {
    if value.Object? {
      forall key | key in value.fields
        ensures Merge(value.fields[key], value.fields[key]) == value.fields[key]
      {
        MergeWithItself(value.fields[key]);
      }
      assert Merge(value, value).fields == value.fields;
    }
  }

  // ---------------------------------------------------------------------------------------------
  // Deltas after one another
  // ---------------------------------------------------------------------------------------------

  /** Whether laying `over` on `under` leaves nothing of `under`. */
  predicate Covers(over: Json, under: Json)
    decreases over
  {
    over.Object? && under.Object? ==>
      forall key <- under.fields :: key in over.fields && Covers(over.fields[key], under.fields[key])
  }

  lemma {:induction false} CoveringLeavesNothing(over: Json, under: Json)
    ensures Merge(under, over) == over <==> Covers(over, under)
    decreases over
  {
    if over.Object? && under.Object? {
      forall key | key in under.fields && key in over.fields
        ensures Merge(under.fields[key], over.fields[key]) == over.fields[key] <==>
                Covers(over.fields[key], under.fields[key])
      {
        CoveringLeavesNothing(over.fields[key], under.fields[key]);
      }
      var merged := Merge(under, over);
      assert merged.fields == over.fields <==>
             forall key <- under.fields :: key in over.fields && merged.fields[key] == over.fields[key];
    }
  }

  /** Nowhere does a plain value of `second` stand between objects of which `third` leaves something of `first`. */
  predicate Groups(first: Json, second: Json, third: Json)
    decreases third
  {
    first.Object? && third.Object? ==>
      if second.Object? then
        forall key <- first.fields :: key in second.fields && key in third.fields ==>
          Groups(first.fields[key], second.fields[key], third.fields[key])
      else Covers(third, first)
  }

  /**
   * Merging two deltas first and applying the result is the same as applying them in turn exactly when no plain
   * value of the first delta erases an object that the second delta only adds to.
   */
  lemma {:induction false} MergeGroupsExactlyWhen(base: Json, first: Json, second: Json)
    ensures Merge(Merge(base, first), second) == Merge(base, Merge(first, second)) <==> Groups(base, first, second)
    decreases second
  {
    hide Covers;
    if base.Object? && second.Object? && !first.Object? {
      CoveringLeavesNothing(second, base);
    } else if base.Object? && first.Object? && second.Object? {
      var stepped, grouped := Merge(Merge(base, first), second), Merge(base, Merge(first, second));
      assert stepped.fields.Keys == grouped.fields.Keys;
      forall key | key in stepped.fields
        ensures stepped.fields[key] == grouped.fields[key] <==>
                (key in base.fields && key in first.fields && key in second.fields ==>
                   Groups(base.fields[key], first.fields[key], second.fields[key]))
      {
        if key in base.fields && key in first.fields && key in second.fields {
          MergeGroupsExactlyWhen(base.fields[key], first.fields[key], second.fields[key]);
        }
      }
      assert stepped == grouped <==> forall key <- stepped.fields :: stepped.fields[key] == grouped.fields[key];
    }
  }

  /** The merge is not associative: a plain value in between erases what was there. */
  lemma MergeIsNotAssociative()
    ensures var base, first, second := Object(map["a" := Object(map["x" := Null])]), Object(map["a" := Bool(true)]),
                                       Object(map["a" := Object(map["y" := Null])]);
      && Merge(Merge(base, first), second) == Object(map["a" := Object(map["y" := Null])])
      && Merge(base, Merge(first, second)) == Object(map["a" := Object(map["x" := Null, "y" := Null])])
  {
    var x, y, flag := Object(map["x" := Null]), Object(map["y" := Null]), Bool(true);
    MergeUnderOneKey(x, flag);
    MergeUnderOneKey(flag, y);
    MergeUnderOneKey(x, y);
    assert Merge(x, y).fields == map["x" := Null, "y" := Null];
    MergeUnderOneKey(x, Merge(flag, y));
  }

  lemma MergeUnderOneKey(base: Json, delta: Json)
    ensures Merge(Object(map["a" := base]), Object(map["a" := delta])) == Object(map["a" := Merge(base, delta)])
  {
    assert Merge(Object(map["a" := base]), Object(map["a" := delta])).fields == map["a" := Merge(base, delta)];
  }

  /** Deltas that give the same value wherever both give a plain one. */
  predicate Agree(first: Json, second: Json)
    decreases first
  {
    if first.Object? && second.Object? then
      forall key <- first.fields :: key in second.fields ==> Agree(first.fields[key], second.fields[key])
    else first == second
  }

  function Over(base: Option<Json>, delta: Json): Json
  {
    if base.Some? then Merge(base.value, delta) else delta
  }

  function Entry(base: Option<Json>, key: string): Option<Json>
  {
    if base.Some? && base.value.Object? && key in base.value.fields then Some(base.value.fields[key]) else None
  }

  /** Two writers may merge their deltas in either order exactly when the deltas agree. */
  lemma {:induction false} OrderIsFreeExactlyWhen(base: Option<Json>, first: Json, second: Json)
    ensures Merge(Over(base, first), second) == Merge(Over(base, second), first) <==> Agree(first, second)
    decreases first
  {
    var one, other := Merge(Over(base, first), second), Merge(Over(base, second), first);
    if first.Object? && second.Object? {
      assert one.Object? && other.Object? && one.fields.Keys == other.fields.Keys;
      forall key | key in one.fields
        ensures one.fields[key] == other.fields[key] <==>
                (key in first.fields && key in second.fields ==> Agree(first.fields[key], second.fields[key]))
      {
        if key in first.fields && key in second.fields {
          OrderIsFreeExactlyWhen(Entry(base, key), first.fields[key], second.fields[key]);
          assert Over(base, first).fields[key] == Over(Entry(base, key), first.fields[key]);
          assert Over(base, second).fields[key] == Over(Entry(base, key), second.fields[key]);
        }
      }
      assert one == other <==> forall key <- one.fields :: one.fields[key] == other.fields[key];
    } else if first == second {
      MergeWithItself(first);
    }
  }

  // ---------------------------------------------------------------------------------------------
  // Numbers
  // ---------------------------------------------------------------------------------------------

  /** Every number anywhere in the value is one that `safe` lets through. */
  predicate SafeNumbers(value: Json, safe: string -> bool)
    decreases value
  {
    match value
    case Number(token) => safe(token)
    case Array(items) => forall i :: 0 <= i < |items| ==> SafeNumbers(items[i], safe)
    case Object(fields) => forall key <- fields :: SafeNumbers(fields[key], safe)
    case _ => true
  }

  method ValidateConfigNumbers(value: Json, safe: string -> bool) returns (valid: bool)
    ensures valid == SafeNumbers(value, safe)
    decreases value
  {
    match value
    case Number(token) => valid := safe(token);
    case Array(items) =>
      for i := 0 to |items|
        invariant forall j :: 0 <= j < i ==> SafeNumbers(items[j], safe)
      {
        valid := ValidateConfigNumbers(items[i], safe);
        if !valid {
          return;
        }
      }
      valid := true;
    case Object(fields) =>
      var keys := fields.Keys;
      while keys != {}
        invariant keys <= fields.Keys && forall key <- fields :: key in keys || SafeNumbers(fields[key], safe)
        decreases |keys|
      {
        var key :| key in keys;
        keys := keys - {key};
        valid := ValidateConfigNumbers(fields[key], safe);
        if !valid {
          return;
        }
      }
      valid := true;
    case _ => valid := true;
  }

  datatype Into = Key(key: string) | Index(index: nat)

  /** What stands inside a value, down through objects and arrays. */
  function Inside(value: Json, way: seq<Into>): Option<Json>
  {
    if way == [] then Some(value)
    else
      match way[0]
      case Key(key) => if value.Object? && key in value.fields then Inside(value.fields[key], way[1..]) else None
      case Index(i) => if value.Array? && i < |value.items| then Inside(value.items[i], way[1..]) else None
  }

  /** The number inside, if there is one, is let through. */
  ghost predicate IsSafeInside(value: Json, way: seq<Into>, safe: string -> bool)
  {
    var part := Inside(value, way);
    part.Some? && part.value.Number? ==> safe(part.value.token)
  }

  /** A value has safe numbers exactly when every number inside it, at any depth, is one that is let through. */
  lemma SafeMeansSafeInside(value: Json, safe: string -> bool)
    ensures SafeNumbers(value, safe) <==> forall way :: IsSafeInside(value, way, safe)
  {
    if SafeNumbers(value, safe) {
      forall way ensures IsSafeInside(value, way, safe) {
        SafeAllTheWay(value, way, safe);
      }
    } else {
      var way := UnsafeSomewhere(value, safe);
    }
  }

  lemma {:induction false} SafeAllTheWay(value: Json, way: seq<Into>, safe: string -> bool)
    requires SafeNumbers(value, safe)
    ensures IsSafeInside(value, way, safe)
    decreases |way|
  {
    if way != [] {
      match way[0]
      case Key(key) => if value.Object? && key in value.fields { SafeAllTheWay(value.fields[key], way[1..], safe); }
      case Index(i) => if value.Array? && i < |value.items| { SafeAllTheWay(value.items[i], way[1..], safe); }
    }
  }

  lemma {:induction false} UnsafeSomewhere(value: Json, safe: string -> bool) returns (way: seq<Into>)
    requires !SafeNumbers(value, safe)
    ensures !IsSafeInside(value, way, safe)
    decreases value
  {
    match value {
      case Array(items) =>
        var i :| 0 <= i < |items| && !SafeNumbers(items[i], safe);
        var rest := UnsafeSomewhere(items[i], safe);
        way := [Index(i)] + rest;
        assert way[1..] == rest;
      case Object(fields) =>
        var key :| key in fields && !SafeNumbers(fields[key], safe);
        var rest := UnsafeSomewhere(fields[key], safe);
        way := [Key(key)] + rest;
        assert way[1..] == rest;
      case _ => way := [];
    }
  }

  /** A merge of safe values is safe. */
  lemma {:induction false} MergeKeepsNumbersSafe(base: Json, delta: Json, safe: string -> bool)
    requires SafeNumbers(base, safe) && SafeNumbers(delta, safe)
    ensures SafeNumbers(Merge(base, delta), safe)
    decreases delta
  {
    if base.Object? && delta.Object? {
      forall key | key in base.fields && key in delta.fields
        ensures SafeNumbers(Merge(base.fields[key], delta.fields[key]), safe)
      {
        MergeKeepsNumbersSafe(base.fields[key], delta.fields[key], safe);
      }
    }
  }
}
