/** backend/app/group_node.py: the conversion of projected query rows into one
    dict per row. A dict is a sequence of (key, value) pairs in insertion order,
    with Python's assignment, pop and dict(zip(…)) semantics. A KeyError raised
    by `pop` is None. */
module GroupNode {
  import opened Values

  type Dict = seq<(string, Json)>

  /** The columns the group router projects. */
  const GroupProject: seq<string> := ["id", "uuid", "time", "label", "description"]

  /** zip(keys, values): pairs up to the shorter of the two. */
  function Zip(keys: seq<string>, values: seq<Json>): (z: Dict)
    ensures |z| == if |keys| <= |values| then |keys| else |values|
    ensures forall i :: 0 <= i < |z| ==> z[i] == (keys[i], values[i])
  {
    var n := if |keys| <= |values| then |keys| else |values|;
    seq(n, i requires 0 <= i < n => (keys[i], values[i]))
  }

  /** The value paired with key last in pairs: what a dict built from them holds. */
  function LastLookup(pairs: Dict, key: string): (r: Option<Json>)
    ensures r.Some? <==> HasKey(pairs, key)
  {
    if pairs == [] then None
    else if pairs[|pairs| - 1].0 == key then Some(pairs[|pairs| - 1].1)
    else
      var r := LastLookup(pairs[..|pairs| - 1], key);
      assert forall i :: 0 <= i < |pairs| - 1 ==> pairs[i] == pairs[..|pairs| - 1][i];
      r
  }

  /** The position of key in a dict that holds it. */
  function IndexOfKey(d: Dict, key: string): (i: nat)
    requires HasKey(d, key)
    ensures i < |d| && d[i].0 == key && forall j :: 0 <= j < i ==> d[j].0 != key
  {
    if d[0].0 == key then 0
    else
      assert HasKey(d[1..], key) by {
        var m :| 0 <= m < |d| && d[m].0 == key;
        assert d[1..][m - 1].0 == key;
      }
      1 + IndexOfKey(d[1..], key)
  }

  /** `d[key] = value`: an existing key keeps its place, a new key goes last. */
  function SetItem(d: Dict, key: string, value: Json): (r: Dict)
    ensures Keys(r) == if HasKey(d, key) then Keys(d) else Keys(d) + [key]
    ensures HasKey(r, key)
    ensures UniqueKeys(d) ==> UniqueKeys(r)
  {
    if HasKey(d, key) then
      var r := d[IndexOfKey(d, key) := (key, value)];
      assert Keys(r) == Keys(d);
      assert r[IndexOfKey(d, key)].0 == key;
      r
    else
      var r := d + [(key, value)];
      assert Keys(r) == Keys(d) + [key];
      assert r[|d|].0 == key;
      r
  }

  /** After `d[key] = value` the dict holds value under key and nothing else changed. */
  lemma SetItemLookup(d: Dict, key: string, value: Json, k: string)
    requires UniqueKeys(d)
    ensures Lookup(SetItem(d, key, value), k) == if k == key then Some(value) else Lookup(d, k)
  {
    var r := SetItem(d, key, value);
    if HasKey(d, key) {
      var i := IndexOfKey(d, key);
      assert r == d[i := (key, value)];
      LookupAt(r, i);
      if k != key && HasKey(d, k) {
        var m := IndexOfKey(d, k);
        LookupAt(r, m);
        LookupAt(d, m);
      } else if k != key {
        assert forall j :: 0 <= j < |r| ==> r[j].0 == d[j].0;
      }
    } else {
      assert r == d + [(key, value)];
      LookupAt(r, |d|);
      if k != key && HasKey(d, k) {
        var m := IndexOfKey(d, k);
        LookupAt(r, m);
        LookupAt(d, m);
      } else if k != key {
        assert !HasKey(r, k);
      }
    }
  }

  /** dict(pairs): assigning the pairs one after another. */
  function DictFromPairs(pairs: Dict): (d: Dict)
    ensures UniqueKeys(d)
  {
    if pairs == [] then []
    else SetItem(DictFromPairs(pairs[..|pairs| - 1]), pairs[|pairs| - 1].0, pairs[|pairs| - 1].1)
  }

  /** Without its last pair, a dict keeps distinct keys and lacks that pair's key. */
  lemma DropLastKeys(pairs: Dict)
    requires pairs != [] && UniqueKeys(pairs)
    ensures var front := pairs[..|pairs| - 1];
            UniqueKeys(front) && !HasKey(front, pairs[|pairs| - 1].0)
  {
    var front := pairs[..|pairs| - 1];
    forall i | 0 <= i < |front| ensures front[i] == pairs[i] {
    }
  }

  /** Pairs without a repeated key make the dict of exactly those pairs. */
  lemma {:induction false} DictFromDistinctPairs(pairs: Dict)
    requires UniqueKeys(pairs)
    ensures DictFromPairs(pairs) == pairs
  {
    if pairs != [] {
      var front := pairs[..|pairs| - 1];
      var last := pairs[|pairs| - 1];
      DropLastKeys(pairs);
      DictFromDistinctPairs(front);
      SetItemAppends(front, last.0, last.1);
      assert DictFromPairs(pairs) == SetItem(DictFromPairs(front), last.0, last.1);
      assert pairs == front + [last];
    }
  }

  /** A dict built from pairs holds, under each key, the value paired with it last. */
  lemma {:induction false} DictFromPairsLookup(pairs: Dict, k: string)
    ensures Lookup(DictFromPairs(pairs), k) == LastLookup(pairs, k)
  {
    if pairs != [] {
      var front := pairs[..|pairs| - 1];
      var last := pairs[|pairs| - 1];
      DictFromPairsLookup(front, k);
      SetItemLookup(DictFromPairs(front), last.0, last.1, k);
    }
  }

  /** `d.pop(key)`: the value and the dict without it, or a KeyError (None). */
  function PopItem(d: Dict, key: string): (r: Option<(Json, Dict)>)
    ensures r.None? <==> !HasKey(d, key)
  {
    if !HasKey(d, key) then None
    else
      var i := IndexOfKey(d, key);
      Some((d[i].1, d[..i] + d[i + 1..]))
  }

  /** Removing entry i moves every later entry one place down; the keys left
      are keys of the dict, and no other key is added. */
  lemma RemoveShifts(d: Dict, i: nat)
    requires i < |d|
    ensures var rest := d[..i] + d[i + 1..];
            |rest| == |d| - 1
            && (forall j :: 0 <= j < |rest| ==> rest[j] == if j < i then d[j] else d[j + 1])
            && forall k :: HasKey(rest, k) ==> HasKey(d, k) && (UniqueKeys(d) ==> k != d[i].0)
  {
    var rest := d[..i] + d[i + 1..];
    forall j | 0 <= j < |rest| ensures rest[j] == if j < i then d[j] else d[j + 1] {
    }
  }

  /** Popping a key from a dict removes it and keeps the dict free of repeats. */
  lemma PopItemRemoves(d: Dict, key: string)
    requires UniqueKeys(d) && HasKey(d, key)
    ensures !HasKey(PopItem(d, key).value.1, key) && UniqueKeys(PopItem(d, key).value.1)
  {
    var i := IndexOfKey(d, key);
    var rest := d[..i] + d[i + 1..];
    assert PopItem(d, key).value.1 == rest;
    RemoveShifts(d, i);
    assert UniqueKeys(rest) by {
      forall p, q | 0 <= p < q < |rest| ensures rest[p].0 != rest[q].0 {
        assert rest[p] == (if p < i then d[p] else d[p + 1]);
        assert rest[q] == (if q < i then d[q] else d[q + 1]);
      }
    }
  }

  /** The value pop returns is the one stored under the key. */
  lemma PopItemValue(d: Dict, key: string)
    requires UniqueKeys(d) && HasKey(d, key)
    ensures Lookup(d, key) == Some(PopItem(d, key).value.0)
  {
    LookupAt(d, IndexOfKey(d, key));
  }

  /** Popping a key leaves the value under every other key as it was. */
  lemma PopItemLeavesOthers(d: Dict, key: string, k: string)
    requires UniqueKeys(d) && HasKey(d, key) && k != key
    ensures Lookup(PopItem(d, key).value.1, k) == Lookup(d, k)
  {
    var i := IndexOfKey(d, key);
    var rest := d[..i] + d[i + 1..];
    assert PopItem(d, key).value.1 == rest;
    RemoveShifts(d, i);
    if HasKey(d, k) {
      var m := IndexOfKey(d, k);
      var j := if m < i then m else m - 1;
      assert rest[j] == d[m];
      LookupAt(d, m);
      assert UniqueKeys(rest) by {
        PopItemRemoves(d, key);
      }
      LookupAt(rest, j);
    }
  }

  /** The value behind Python's `None` given to time_ago. */
  function GetOrNull(d: Dict, key: string): Json
  {
    match Lookup(d, key)
    case None => Null
    case Some(v) => v
  }

  /** The two assignments after the zip: `item["pk"] = item.pop("id")`, then
      `item["ctime"] = time_ago(item.get("time"))`. None is the KeyError of a
      dict without "id". */
  function MoveId(item: Dict, timeAgo: Json -> Json): Option<Dict>
  {
    match PopItem(item, "id")
    case None => None
    case Some((id, rest)) =>
      var withPk := SetItem(rest, "pk", id);
      Some(SetItem(withPk, "ctime", timeAgo(GetOrNull(withPk, "time"))))
  }

  /** One row: zip with the projection (`project or []`), then MoveId. */
  function RowToDict(project: Option<seq<string>>, row: seq<Json>, timeAgo: Json -> Json): Option<Dict>
  {
    var keys := if project.Some? then project.value else [];
    MoveId(DictFromPairs(Zip(keys, row)), timeAgo)
  }

  /** What a row's dict holds: it exists exactly when "id" is projected and
      present in the row; "pk" is the id, "ctime" is time_ago of "time", "id"
      is gone, and every other projected column is kept. */
  lemma RowToDictContents(project: Option<seq<string>>, row: seq<Json>, timeAgo: Json -> Json)
    ensures var keys := if project.Some? then project.value else [];
            var pairs := Zip(keys, row);
            var r := RowToDict(project, row, timeAgo);
            (r.Some? <==> HasKey(pairs, "id"))
            && (r.Some? ==> (UniqueKeys(r.value)
                             && !HasKey(r.value, "id")
                             && Lookup(r.value, "pk") == LastLookup(pairs, "id")
                             && Lookup(r.value, "ctime") == Some(timeAgo(match LastLookup(pairs, "time")
                                                                          case None => Null
                                                                          case Some(t) => t))
                             && forall k :: k != "id" && k != "pk" && k != "ctime" ==>
                                  Lookup(r.value, k) == LastLookup(pairs, k)))
  {
    var keys := if project.Some? then project.value else [];
    var pairs := Zip(keys, row);
    var item := DictFromPairs(pairs);
    DictFromPairsLookup(pairs, "id");
    if HasKey(item, "id") {
      PopItemRemoves(item, "id");
      PopItemValue(item, "id");
      var (id, rest) := PopItem(item, "id").value;
      var withPk := SetItem(rest, "pk", id);
      var r := SetItem(withPk, "ctime", timeAgo(GetOrNull(withPk, "time")));
      SetItemLookup(rest, "pk", id, "time");
      PopItemLeavesOthers(item, "id", "time");
      DictFromPairsLookup(pairs, "time");
      SetItemLookup(withPk, "ctime", timeAgo(GetOrNull(withPk, "time")), "ctime");
      SetItemLookup(withPk, "ctime", timeAgo(GetOrNull(withPk, "time")), "pk");
      SetItemLookup(rest, "pk", id, "pk");
      SetItemLookup(withPk, "ctime", timeAgo(GetOrNull(withPk, "time")), "id");
      SetItemLookup(rest, "pk", id, "id");
      forall k | k != "id" && k != "pk" && k != "ctime" ensures Lookup(r, k) == LastLookup(pairs, k) {
        SetItemLookup(withPk, "ctime", timeAgo(GetOrNull(withPk, "time")), k);
        SetItemLookup(rest, "pk", id, k);
        PopItemLeavesOthers(item, "id", k);
        DictFromPairsLookup(pairs, k);
      }
    }
  }

  /** A projection without the list (None) makes every row raise KeyError. */
  lemma NoProjectionRaises(row: seq<Json>, timeAgo: Json -> Json)
    ensures RowToDict(None, row, timeAgo).None?
  {
    assert Zip([], row) == [];
  }

  /** Distinct columns give a dict without repeated keys. */
  lemma ZipDistinct(keys: seq<string>, row: seq<Json>)
    requires forall i, j :: 0 <= i < j < |keys| ==> keys[i] != keys[j]
    ensures UniqueKeys(Zip(keys, row))
  {
  }

  /** Popping the first key of a dict takes its first entry off. */
  lemma PopFirst(d: Dict, key: string)
    requires d != [] && d[0].0 == key
    ensures PopItem(d, key) == Some((d[0].1, d[1..]))
  {
    assert HasKey(d, key);
    assert d[..0] + d[1..] == d[1..];
  }

  /** Dropping a dict's first entry keeps its keys distinct and adds no key. */
  lemma DropFirstKeys(d: Dict, k: string)
    requires d != [] && UniqueKeys(d) && !HasKey(d, k)
    ensures UniqueKeys(d[1..]) && !HasKey(d[1..], k)
  {
    forall i | 0 <= i < |d| - 1 ensures d[1..][i] == d[i + 1] {
    }
  }

  /** Assigning a key the dict lacks appends it. */
  lemma SetItemAppends(d: Dict, key: string, value: Json)
    requires !HasKey(d, key)
    ensures SetItem(d, key, value) == d + [(key, value)]
  {
  }

  /** Appending an entry under another key adds no k. */
  lemma AppendLacks(d: Dict, e: (string, Json), k: string)
    requires !HasKey(d, k) && e.0 != k
    ensures !HasKey(d + [e], k)
  {
    forall i | 0 <= i < |d| ensures (d + [e])[i] == d[i] {
    }
  }

  lemma AppendTwo(d: Dict, e: (string, Json), f: (string, Json))
    ensures d + [e] + [f] == d + [e, f]
  {
  }

  /** A dict with "id" first and no "pk" or "ctime" becomes its other entries
      in order, then "pk" holding the id, then "ctime". */
  lemma IdFirstMoveId(item: Dict, timeAgo: Json -> Json)
    requires UniqueKeys(item) && item != [] && item[0].0 == "id"
    requires !HasKey(item, "pk") && !HasKey(item, "ctime")
    ensures MoveId(item, timeAgo)
            == Some(item[1..] + [("pk", item[0].1), ("ctime", timeAgo(GetOrNull(item, "time")))])
  {
    var rest := item[1..];
    var id := item[0].1;
    PopFirst(item, "id");
    DropFirstKeys(item, "pk");
    DropFirstKeys(item, "ctime");
    SetItemAppends(rest, "pk", id);
    var withPk := rest + [("pk", id)];
    AppendLacks(rest, ("pk", id), "ctime");
    PopItemLeavesOthers(item, "id", "time");
    SetItemLookup(rest, "pk", id, "time");
    var ctime := timeAgo(GetOrNull(item, "time"));
    assert GetOrNull(withPk, "time") == GetOrNull(item, "time");
    SetItemAppends(withPk, "ctime", ctime);
    AppendTwo(rest, ("pk", id), ("ctime", ctime));
  }

  /** The group projection zipped with a full row: "id" first, no key twice,
      no "pk" or "ctime", and "time" holding the row's third value. */
  lemma GroupPairs(row: seq<Json>)
    requires |row| == |GroupProject|
    ensures var pairs := Zip(GroupProject, row);
            UniqueKeys(pairs) && pairs[0] == ("id", row[0])
            && !HasKey(pairs, "pk") && !HasKey(pairs, "ctime")
            && GetOrNull(pairs, "time") == row[2]
            && pairs[1..] == [("uuid", row[1]), ("time", row[2]), ("label", row[3]), ("description", row[4])]
  {
    var pairs := Zip(GroupProject, row);
    assert UniqueKeys(pairs) by {
      assert forall i, j :: 0 <= i < j < |GroupProject| ==> GroupProject[i] != GroupProject[j];
      ZipDistinct(GroupProject, row);
    }
    assert !HasKey(pairs, "pk") && !HasKey(pairs, "ctime") by {
      assert forall i :: 0 <= i < |pairs| ==> pairs[i].0 == GroupProject[i];
    }
    assert GetOrNull(pairs, "time") == row[2] by {
      assert pairs[2] == ("time", row[2]);
      LookupAt(pairs, 2);
    }
  }

  /** The projected columns after "id", paired with the row's values. */
  lemma GroupTail(row: seq<Json>)
    requires |row| == |GroupProject|
    ensures Zip(GroupProject, row)[1..] == [("uuid", row[1]), ("time", row[2]), ("label", row[3]), ("description", row[4])]
  {
    var t := Zip(GroupProject, row)[1..];
    assert |t| == 4;
    assert GroupProject[1] == "uuid" && GroupProject[2] == "time";
    assert GroupProject[3] == "label" && GroupProject[4] == "description";
    assert t[0] == ("uuid", row[1]) && t[1] == ("time", row[2]);
    assert t[2] == ("label", row[3]) && t[3] == ("description", row[4]);
  }

  lemma FourThenTwo(a: (string, Json), b: (string, Json), c: (string, Json), d: (string, Json),
                    e: (string, Json), f: (string, Json))
    ensures [a, b, c, d] + [e, f] == [a, b, c, d, e, f]
  {
  }

  /** With the group projection a row becomes uuid, time, label and
      description in that order, then "pk" holding the id, then "ctime". */
  lemma GroupRowDict(row: seq<Json>, timeAgo: Json -> Json)
    requires |row| == |GroupProject|
    ensures RowToDict(Some(GroupProject), row, timeAgo)
            == Some([("uuid", row[1]), ("time", row[2]), ("label", row[3]), ("description", row[4]),
                     ("pk", row[0]), ("ctime", timeAgo(row[2]))])
  {
    var pairs := Zip(GroupProject, row);
    var moved := [("pk", row[0]), ("ctime", timeAgo(row[2]))];
    assert RowToDict(Some(GroupProject), row, timeAgo) == Some(pairs[1..] + moved) by {
      GroupPairs(row);
      DictFromDistinctPairs(pairs);
      IdFirstMoveId(pairs, timeAgo);
    }
    GroupTail(row);
    FourThenTwo(("uuid", row[1]), ("time", row[2]), ("label", row[3]), ("description", row[4]),
                ("pk", row[0]), ("ctime", timeAgo(row[2])));
  }

  /** RowToDict, one statement at a time: the zip, the pop (None is its
      KeyError), then the two assignments. */
  lemma RowToDictSteps(keys: seq<string>, project: Option<seq<string>>, row: seq<Json>, timeAgo: Json -> Json)
    requires keys == if project.Some? then project.value else []
    ensures var popped := PopItem(DictFromPairs(Zip(keys, row)), "id");
            (popped.None? ==> RowToDict(project, row, timeAgo).None?)
            && (popped.Some? ==>
                  var withPk := SetItem(popped.value.1, "pk", popped.value.0);
                  RowToDict(project, row, timeAgo) == Some(SetItem(withPk, "ctime", timeAgo(GetOrNull(withPk, "time")))))
  {
  }

  /** projected_data_to_dict: one dict per row, in row order; the first row
      that raises aborts the whole conversion. */
  method ProjectedDataToDict(rows: seq<seq<Json>>, project: Option<seq<string>>, timeAgo: Json -> Json)
    returns (results: Option<seq<Dict>>)
    ensures results.None? <==> exists i :: 0 <= i < |rows| && RowToDict(project, rows[i], timeAgo).None?
    ensures results.Some? ==> (|results.value| == |rows|
                               && forall i :: 0 <= i < |rows| ==> RowToDict(project, rows[i], timeAgo) == Some(results.value[i]))
  {
    var acc: seq<Dict> := [];
    var keys := if project.Some? then project.value else [];
    var n := 0;
    while n < |rows|
      invariant n <= |rows| && |acc| == n
      invariant forall i :: 0 <= i < n ==> RowToDict(project, rows[i], timeAgo) == Some(acc[i])
    {
      RowToDictSteps(keys, project, rows[n], timeAgo);
      var item := DictFromPairs(Zip(keys, rows[n]));
      var popped := PopItem(item, "id");
      if popped.None? {
        return None;
      }
      item := SetItem(popped.value.1, "pk", popped.value.0);
      item := SetItem(item, "ctime", timeAgo(GetOrNull(item, "time")));
      forall i | 0 <= i < n + 1 ensures RowToDict(project, rows[i], timeAgo) == Some((acc + [item])[i]) {
        if i < n {
          assert (acc + [item])[i] == acc[i];
        }
      }
      acc := acc + [item];
      n := n + 1;
    }
    return Some(acc);
  }
}
