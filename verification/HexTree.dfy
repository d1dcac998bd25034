/** Shortening every long hex string in a decoded JSON value, in place. */
module HexTree {
  import opened HexPreview
  import opened Options

  /** A decoded JSON value as Go holds it: maps and slices are references. `K` is the type of map keys. */
  datatype Value<K> =
    | Null | Bool(b: bool) | Number(r: real) | Str(s: string)
    | Map(cell: MapCell<K>)
    | List(cells: array<Value<K>>)

  class MapCell<K(==)> {
    var entries: map<K, Value<K>>
  }

  /** The tree a value stands for. `cell` or `cells` holds its entries; `repr` has all objects of the subtree. */
  datatype Tree<K> =
    | Leaf(value: Value<K>)
    | Object(cell: MapCell<K>, fields: map<K, Tree<K>>, repr: set<object>)
    | Array(cells: array<Value<K>>, items: seq<Tree<K>>, repr: set<object>)

  function Cells<K(==)>(t: Tree<K>): set<object> {
    if t.Leaf? then {} else t.repr
  }

  /** No object is used twice: the caller owns a freshly decoded tree. */
  ghost predicate Owned<K>(t: Tree<K>) {
    match t
    case Leaf(v) => !v.Map? && !v.List?
    case Object(cell, fields, repr) =>
      && cell in repr
      && (forall k <- fields :: Owned(fields[k]) && Cells(fields[k]) <= repr && cell !in Cells(fields[k]))
      && (forall j <- fields, k <- fields :: j != k ==> Cells(fields[j]) !! Cells(fields[k]))
    case Array(cells, items, repr) =>
      && cells in repr
      && (forall i :: 0 <= i < |items| ==>
            Owned(items[i]) && Cells(items[i]) <= repr && cells !in Cells(items[i]))
      && (forall i, j :: 0 <= i < |items| && 0 <= j < |items| && i != j ==> Cells(items[i]) !! Cells(items[j]))
  }

  /** The heap holds tree `t` at `v`. */
  ghost predicate Holds<K>(v: Value<K>, t: Tree<K>)
    reads Cells(t)
    decreases t
  {
    match t
    case Leaf(w) => v == w
    case Object(cell, fields, repr) =>
      && v == Map(cell) && cell in repr && cell.entries.Keys == fields.Keys
      && forall k <- fields :: Cells(fields[k]) <= repr && Holds(cell.entries[k], fields[k])
    case Array(cells, items, repr) =>
      && v == List(cells) && cells in repr && cells.Length == |items|
      && forall i :: 0 <= i < |items| ==> Cells(items[i]) <= repr && Holds(cells[i], items[i])
  }

  function TruncatedLeaf<K(==)>(v: Value<K>): Value<K> {
    if v.Str? then Str(Truncated(v.s)) else v
  }

  /** The pure form: every string leaf is truncated, all else stays. */
  function TruncatedTree<K(==)>(t: Tree<K>): (u: Tree<K>)
    ensures Cells(u) == Cells(t)
  {
    match t
    case Leaf(v) => Leaf(TruncatedLeaf(v))
    case Object(cell, fields, repr) => Object(cell, map k | k in fields :: TruncatedTree(fields[k]), repr)
    case Array(cells, items, repr) =>
      Array(cells, seq(|items|, i requires 0 <= i < |items| => TruncatedTree(items[i])), repr)
  }

  // ----- Along paths.

  /** A step down the tree, to a key of a map or an index of a slice. */
  datatype Edge<K> = Key(k: K) | Index(i: nat)

  /** The string at the end of a path, if there is one. */
  function StringAt<K(==)>(t: Tree<K>, path: seq<Edge<K>>): Option<string>
    decreases |path|
  {
    if path == [] then
      if t.Leaf? && t.value.Str? then Some(t.value.s) else None
    else
      match t
      case Leaf(_) => None
      case Object(_, fields, _) =>
        if path[0].Key? && path[0].k in fields then StringAt(fields[path[0].k], path[1..]) else None
      case Array(_, items, _) =>
        if path[0].Index? && path[0].i < |items| then StringAt(items[path[0].i], path[1..]) else None
  }

  /** The string the heap has at the end of a path from `v`. */
  ghost function FoundAt<K>(v: Value<K>, path: seq<Edge<K>>): Option<string>
    reads *
    decreases |path|
  {
    if path == [] then
      if v.Str? then Some(v.s) else None
    else
      match v
      case Map(cell) =>
        if path[0].Key? && path[0].k in cell.entries then FoundAt(cell.entries[path[0].k], path[1..]) else None
      case List(cells) =>
        if path[0].Index? && path[0].i < cells.Length then FoundAt(cells[path[0].i], path[1..]) else None
      case _ => None
  }

  lemma {:induction false} FoundInTree<K>(v: Value<K>, t: Tree<K>, path: seq<Edge<K>>)
    requires Owned(t) && Holds(v, t)
    ensures FoundAt(v, path) == StringAt(t, path)
    decreases |path|
  {
    if path != [] {
      match t
      case Leaf(_) =>
      case Object(cell, fields, _) =>
        if path[0].Key? && path[0].k in fields {
          FoundInTree(cell.entries[path[0].k], fields[path[0].k], path[1..]);
        }
      case Array(cells, items, _) =>
        if path[0].Index? && path[0].i < |items| {
          FoundInTree(cells[path[0].i], items[path[0].i], path[1..]);
        }
    }
  }

  /** A string and its short form, or neither. */
  predicate Shortened(before: Option<string>, after: Option<string>) {
    match before
    case None => after == None
    case Some(s) => after.Some? && ShortForm(s, after.value)
  }

  /** Wherever the tree has a string, under any keys and indices, the result has its short form, and no other strings. */
  lemma {:induction false} StringsAreShortened<K>(t: Tree<K>, path: seq<Edge<K>>)
    ensures Shortened(StringAt(t, path), StringAt(TruncatedTree(t), path))
    decreases |path|
  {
    if path == [] {
      if t.Leaf? && t.value.Str? { TruncatedIsShortForm(t.value.s); }
    } else {
      match t
      case Leaf(_) =>
      case Object(_, fields, _) =>
        if path[0].Key? && path[0].k in fields { StringsAreShortened(fields[path[0].k], path[1..]); }
      case Array(_, items, _) =>
        if path[0].Index? && path[0].i < |items| { StringsAreShortened(items[path[0].i], path[1..]); }
    }
  }

  lemma {:induction false} TruncationKeepsOwned<K>(t: Tree<K>)
    requires Owned(t)
    ensures Owned(TruncatedTree(t))
  {
    match t
    case Leaf(_) =>
    case Object(_, fields, _) =>
      forall k | k in fields ensures Owned(TruncatedTree(fields[k])) { TruncationKeepsOwned(fields[k]); }
    case Array(_, items, _) =>
      forall i | 0 <= i < |items| ensures Owned(TruncatedTree(items[i])) { TruncationKeepsOwned(items[i]); }
  }

  /**
   `truncateHexInTree`. Whatever path one looks along: a string found there before has been replaced by its short form,
   and where there was none there is none.
   */
  method TruncateHexInTree<K(==)>(v: Value<K>, ghost t: Tree<K>, ghost path: seq<Edge<K>>) returns (r: Value<K>)
    requires Owned(t) && Holds(v, t)
    modifies Cells(t)
    ensures Holds(r, TruncatedTree(t)) && (t.Leaf? || r == v)
    ensures Shortened(old(FoundAt(v, path)), FoundAt(r, path))
  {
    FoundInTree(v, t, path);
    r := TruncateInPlace(v, t);
    TruncationKeepsOwned(t);
    FoundInTree(r, TruncatedTree(t), path);
    StringsAreShortened(t, path);
  }

  /** The recursion: rewrites maps, in any order of their keys, and slices in place. */
  method TruncateInPlace<K(==)>(v: Value<K>, ghost t: Tree<K>) returns (r: Value<K>)
    requires Owned(t) && Holds(v, t)
    modifies Cells(t)
    ensures Holds(r, TruncatedTree(t))
    ensures t.Leaf? || r == v
    decreases t, 2
  {
    match v
    case Map(cell) =>
      TruncateMap(cell, t);
      r := v;
    case List(cells) =>
      TruncateList(cells, t);
      r := v;
    case Str(s) =>
      var s' := TruncateHexValue(s);
      r := Str(s');
    case _ =>
      r := v;
  }

  /** The heap holds trees `now` in the map. */
  ghost predicate MapHolds<K>(cell: MapCell<K>, now: map<K, Tree<K>>, repr: set<object>)
    reads cell, repr
  {
    && cell.entries.Keys == now.Keys
    && (forall k <- now :: Cells(now[k]) <= repr && cell !in Cells(now[k]) && Holds(cell.entries[k], now[k]))
  }

  method TruncateEntry<K(==)>(cell: MapCell<K>, k: K, ghost now: map<K, Tree<K>>, ghost repr: set<object>)
    requires MapHolds(cell, now, repr) && k in now && Owned(now[k])
    requires forall j <- now :: j != k ==> Cells(now[j]) !! Cells(now[k])
    modifies cell, Cells(now[k])
    ensures MapHolds(cell, now[k := TruncatedTree(now[k])], repr)
    decreases now[k], 3
  {
    var child := TruncateInPlace(cell.entries[k], now[k]);
    assert forall j <- now :: j != k ==> Holds(cell.entries[j], now[j]);
    cell.entries := cell.entries[k := child];
    ghost var after := now[k := TruncatedTree(now[k])];
    forall j <- after
      ensures Cells(after[j]) <= repr && cell !in Cells(after[j]) && Holds(cell.entries[j], after[j])
    {
      assert j in now;
    }
  }

  /** `now` is `fields` with the keys not in `todo` treated. */
  ghost predicate Partly<K>(now: map<K, Tree<K>>, fields: map<K, Tree<K>>, todo: set<K>) {
    && todo <= now.Keys == fields.Keys
    && forall k <- now :: now[k] == if k in todo then fields[k] else TruncatedTree(fields[k])
  }

  lemma TreatOne<K>(now: map<K, Tree<K>>, t: Tree<K>, todo: set<K>, k: K)
    requires t.Object? && Owned(t) && Partly(now, t.fields, todo) && k in todo
    ensures Owned(now[k]) && now[k] == t.fields[k] && now[k] < t && Cells(now[k]) <= t.repr
    ensures forall j <- now :: j != k ==> Cells(now[j]) !! Cells(now[k])
    ensures Partly(now[k := TruncatedTree(now[k])], t.fields, todo - {k})
  {
    assert forall j <- now :: Cells(now[j]) == Cells(t.fields[j]);
  }

  lemma TreatedAll<K>(now: map<K, Tree<K>>, t: Tree<K>)
    requires t.Object? && Partly(now, t.fields, {})
    ensures TruncatedTree(t) == t.(fields := now)
  {
    assert TruncatedTree(t).fields == now;
  }

  method TruncateMap<K(==)>(cell: MapCell<K>, ghost t: Tree<K>)
    requires Owned(t) && Holds(Map(cell), t) && t.Object?
    modifies Cells(t)
    ensures Holds(Map(cell), TruncatedTree(t))
    decreases t, 0
  {
    var todo := cell.entries.Keys;
    ghost var now := t.fields;
    while todo != {}
      invariant MapHolds(cell, now, t.repr)
      invariant Partly(now, t.fields, todo)
      decreases todo
    {
      var k :| k in todo;
      TreatOne(now, t, todo, k);
      TruncateEntry(cell, k, now, t.repr);
      now := now[k := TruncatedTree(now[k])];
      todo := todo - {k};
    }
    TreatedAll(now, t);
  }

  ghost predicate ListHolds<K>(cells: array<Value<K>>, now: seq<Tree<K>>, repr: set<object>)
    reads cells, repr
  {
    && cells.Length == |now|
    && (forall i :: 0 <= i < |now| ==> Cells(now[i]) <= repr - {cells} && Holds(cells[i], now[i]))
    && (forall i, j :: 0 <= i < |now| && 0 <= j < |now| && i != j ==> Cells(now[i]) !! Cells(now[j]))
  }

  method TruncateItem<K(==)>(cells: array<Value<K>>, i: nat, ghost now: seq<Tree<K>>, ghost repr: set<object>)
    requires ListHolds(cells, now, repr) && i < |now| && Owned(now[i])
    modifies cells, Cells(now[i])
    ensures ListHolds(cells, now[i := TruncatedTree(now[i])], repr)
    decreases now[i], 3
  {
    var child := TruncateInPlace(cells[i], now[i]);
    assert forall j :: 0 <= j < |now| && j != i ==> Holds(cells[j], now[j]);
    cells[i] := child;
  }

  method TruncateList<K(==)>(cells: array<Value<K>>, ghost t: Tree<K>)
    requires Owned(t) && Holds(List(cells), t) && t.Array?
    modifies Cells(t)
    ensures Holds(List(cells), TruncatedTree(t))
    decreases t, 0
  {
    ghost var now := t.items;
    for i := 0 to cells.Length
      invariant ListHolds(cells, now, t.repr)
      invariant |now| == |t.items|
      invariant forall j :: 0 <= j < |now| ==> now[j] == if j < i then TruncatedTree(t.items[j]) else t.items[j]
    {
      TruncateItem(cells, i, now, t.repr);
      now := now[i := TruncatedTree(t.items[i])];
    }
    assert now == TruncatedTree(t).items;
  }

  // ----- What the pure form keeps.

  /** `u` has the shape of `t`: the same objects, keys and lengths, and the same leaves other than strings. */
  predicate SameShape<K(==)>(t: Tree<K>, u: Tree<K>) {
    match t
    case Leaf(v) => u.Leaf? && if v.Str? then u.value.Str? else u.value == v
    case Object(cell, fields, repr) =>
      && u.Object? && u.cell == cell && u.repr == repr && u.fields.Keys == fields.Keys
      && forall k <- fields :: SameShape(fields[k], u.fields[k])
    case Array(cells, items, repr) =>
      && u.Array? && u.cells == cells && u.repr == repr && |u.items| == |items|
      && forall i :: 0 <= i < |items| ==> SameShape(items[i], u.items[i])
  }

  lemma {:induction false} TruncationKeepsShape<K>(t: Tree<K>)
    ensures SameShape(t, TruncatedTree(t))
  {
    match t
    case Leaf(_) =>
    case Object(_, fields, _) =>
      forall k <- fields ensures SameShape(fields[k], TruncatedTree(t).fields[k]) {
        TruncationKeepsShape(fields[k]);
      }
    case Array(_, items, _) =>
      forall i | 0 <= i < |items| ensures SameShape(items[i], TruncatedTree(t).items[i]) {
        TruncationKeepsShape(items[i]);
      }
  }

  /** Every string in the tree has a length a Go string can have. */
  predicate GoSized<K(==)>(t: Tree<K>) {
    match t
    case Leaf(v) => v.Str? ==> |v.s| <= MAX_LENGTH
    case Object(_, fields, _) => forall k <- fields :: GoSized(fields[k])
    case Array(_, items, _) => forall i :: 0 <= i < |items| ==> GoSized(items[i])
  }

  /** Shortening a tree again changes nothing. */
  lemma {:induction false} TreeTruncationIdempotent<K>(t: Tree<K>)
    requires GoSized(t)
    ensures TruncatedTree(TruncatedTree(t)) == TruncatedTree(t)
  {
    var u := TruncatedTree(t);
    match t
    case Leaf(v) =>
      if v.Str? { TruncatedIdempotent(v.s); }
    case Object(_, fields, _) =>
      forall k <- fields ensures TruncatedTree(u.fields[k]) == u.fields[k] {
        TreeTruncationIdempotent(fields[k]);
      }
      assert TruncatedTree(u).fields == u.fields;
    case Array(_, items, _) =>
      forall i | 0 <= i < |items| ensures TruncatedTree(u.items[i]) == u.items[i] {
        TreeTruncationIdempotent(items[i]);
      }
      assert TruncatedTree(u).items == u.items;
  }
}
