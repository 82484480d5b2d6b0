/** Narrowing a reply to dotted paths: selectPaths, firstArray and pluck of
    packages/agent/ctlshape.go. */
module Select {
  import opened Text
  import opened Json

  /** What a path resolves to in one value. It maps over the arrays it crosses
      and skips an element that lacks the rest. */
  function Pluck(v: Json, parts: seq<string>): Option<Json>
    decreases v
  {
    if parts == [] then Some(v)
    else
      match v
      case Obj(fields) => if parts[0] in fields then Pluck(fields[parts[0]], parts[1..]) else None
      case Arr(items) =>
        var hits := PluckAll(items, parts);
        if hits == [] then None else Some(Arr(hits))
      case _ => None
  }

  function PluckAll(items: seq<Json>, parts: seq<string>): seq<Json>
    decreases items
  {
    if items == [] then []
    else
      match Pluck(items[0], parts)
      case None => PluckAll(items[1..], parts)
      case Some(x) => [x] + PluckAll(items[1..], parts)
  }

  /** The first array a path crosses: how many parts name it, and its elements. */
  datatype Crossing = NoArray | At(count: nat, elems: seq<Json>)

  function FirstArray(v: Json, parts: seq<string>): (c: Crossing)
    ensures c.At? ==> 0 < c.count <= |parts|
    decreases |parts|
  {
    if parts == [] || !v.Obj? || parts[0] !in v.fields then NoArray
    else
      var next := v.fields[parts[0]];
      if next.Arr? then At(1, next.items)
      else
        match FirstArray(next, parts[1..])
        case NoArray => NoArray
        case At(count, elems) => At(count + 1, elems)
  }

  /** What one requested path stands for in the reply. */
  datatype Found = Missing | Scalar(value: Json) | Row(list: string, elems: seq<Json>, rest: seq<string>, key: string)

  function Resolve(v: Json, path: string): Found {
    var parts := Split(path, '.');
    match FirstArray(v, parts)
    case NoArray =>
      (match Pluck(v, parts)
       case None => Missing
       case Some(x) => Scalar(x))
    case At(count, elems) =>
      if exists e | e in elems :: Pluck(e, parts[count..]).Some?
      then Row(Join(parts[..count], '.'), elems, parts[count..], Join(parts[count..], '.'))
      else Missing
  }

  // The array of a row path is named by its prefix

  lemma {:induction false} PrefixCrosses(v: Json, parts: seq<string>)
    requires FirstArray(v, parts).At?
    ensures var c := FirstArray(v, parts); FirstArray(v, parts[..c.count]) == c
    decreases |parts|
  {
    var c := FirstArray(v, parts);
    var next := v.fields[parts[0]];
    if !next.Arr? {
      PrefixCrosses(next, parts[1..]);
      assert parts[..c.count][1..] == parts[1..][..c.count - 1];
    }
  }

  /** The name of a row array leads to the array. */
  lemma RowArrayCrosses(v: Json, path: string)
    requires Resolve(v, path).Row?
    ensures var f := Resolve(v, path);
            FirstArray(v, Split(f.list, '.')).At? && FirstArray(v, Split(f.list, '.')).elems == f.elems
  {
    var parts := Split(path, '.');
    var c := FirstArray(v, parts);
    PrefixCrosses(v, parts);
    SplitJoin(parts[..c.count], '.');
  }

  /** A scalar key never names a row array. */
  lemma ScalarIsNoRowKey(v: Json, p: string, q: string)
    requires Resolve(v, p).Scalar? && Resolve(v, q).Row?
    ensures p != Resolve(v, q).list
  {
    RowArrayCrosses(v, q);
  }

  /** Paths that name one array share its elements. */
  lemma SameArraySameElems(v: Json, p: string, q: string)
    requires Resolve(v, p).Row? && Resolve(v, q).Row? && Resolve(v, p).list == Resolve(v, q).list
    ensures Resolve(v, p).elems == Resolve(v, q).elems
  {
    RowArrayCrosses(v, p);
    RowArrayCrosses(v, q);
  }

  // The remainder below the array

  /** What the rows are asked for: a path that ends at the array leaves nothing,
      which reads as the field with the empty name. */
  function Asks(rest: seq<string>): seq<string> {
    if rest == [] then [""] else rest
  }

  /** The remainder is stored as text and split again for each element. */
  lemma RemainderReads(v: Json, path: string)
    requires Resolve(v, path).Row?
    ensures Split(Resolve(v, path).key, '.') == Asks(Resolve(v, path).rest)
  {
    var parts := Split(path, '.');
    if Resolve(v, path).rest != [] {
      SplitJoin(parts[FirstArray(v, parts).count..], '.');
    }
  }

  lemma {:induction false} PluckAllShrinks(items: seq<Json>, parts: seq<string>)
    ensures |PluckAll(items, parts)| <= |items|
  {
    if items != [] {
      PluckAllShrinks(items[1..], parts);
    }
  }

  /** No value is its own field with the empty name. */
  lemma {:induction false} EmptyNameIsNotItself(v: Json)
    ensures Pluck(v, [""]) != Some(v)
    decreases v
  {
    match v
    case Obj(fields) =>
      if "" in fields {
        assert [""][1..] == [];
        assert Pluck(fields[""], []) == Some(fields[""]);
        assert fields[""] in fields.Values;
      }
    case Arr(items) =>
      var hits := PluckAll(items, [""]);
      if hits == items && items != [] {
        EmptyNameIsNotItself(items[0]);
        PluckAllShrinks(items[1..], [""]);
      }
    case _ =>
  }

  // What a selection must be

  /** How paths and columns are resolved, and the paths that were asked for. */
  datatype Request = Request(found: string -> Found, column: (Json, string) -> Option<Json>, asked: set<string>)

  /** Column key belongs to the rows of an array when an asked path puts it there. */
  predicate IsColumn(q: Request, list: string, key: string) {
    exists p :: p in q.asked && q.found(p).Row? && q.found(p).list == list && q.found(p).key == key
  }

  /** Row holds exactly the columns that the element resolves, with those values. */
  ghost predicate IsRow(q: Request, list: string, e: Json, row: Json) {
    row.Obj? &&
    (forall key | key in row.fields :: IsColumn(q, list, key) && q.column(e, key) == Some(row.fields[key])) &&
    forall key | IsColumn(q, list, key) && q.column(e, key).Some? :: key in row.fields
  }

  /** One row per element, in order. */
  ghost predicate AreRows(q: Request, list: string, elems: seq<Json>, rows: Json) {
    rows.Arr? && |rows.items| == |elems| &&
    forall i | 0 <= i < |elems| :: IsRow(q, list, elems[i], rows.items[i])
  }

  /** Every asked path was found, and is in the selection as a scalar or a row. */
  ghost predicate IsSelection(q: Request, out: map<string, Json>) {
    (forall p | p in q.asked :: !q.found(p).Missing?) &&
    (forall p | p in q.asked && q.found(p).Scalar? :: p in out && out[p] == q.found(p).value) &&
    (forall p | p in q.asked && q.found(p).Row? ::
       q.found(p).list in out && AreRows(q, q.found(p).list, q.found(p).elems, out[q.found(p).list])) &&
    forall key | key in out :: Belongs(q, key)
  }

  predicate Belongs(q: Request, key: string) {
    exists p :: p in q.asked &&
      ((q.found(p).Scalar? && key == p) || (q.found(p).Row? && key == q.found(p).list))
  }

  /** Paths that name one array share its elements, and no scalar names one. */
  ghost predicate Consistent(q: Request) {
    (forall a, b | q.found(a).Row? && q.found(b).Row? && q.found(a).list == q.found(b).list ::
       q.found(a).elems == q.found(b).elems) &&
    forall a, b | q.found(a).Scalar? && q.found(b).Row? :: a != q.found(b).list
  }

  // Building the rows

  /** The columns to build for one array. */
  datatype RowSet = RowSet(elems: seq<Json>, keys: seq<string>)

  ghost predicate RowOf(q: Request, e: Json, keys: seq<string>, row: map<string, Json>) {
    (forall key | key in row :: key in keys && q.column(e, key) == Some(row[key])) &&
    forall key | key in keys && q.column(e, key).Some? :: key in row
  }

  method BuildRow(q: Request, e: Json, keys: seq<string>) returns (row: map<string, Json>)
    ensures RowOf(q, e, keys, row)
  {
    row := map[];
    for i := 0 to |keys|
      invariant RowOf(q, e, keys[..i], row)
    {
      assert keys[..i + 1] == keys[..i] + [keys[i]];
      var got := q.column(e, keys[i]);
      if got.Some? {
        row := row[keys[i] := got.value];
      }
    }
    assert keys[..|keys|] == keys;
  }

  method BuildRows(q: Request, list: string, rs: RowSet) returns (rows: Json)
    requires forall key :: key in rs.keys <==> IsColumn(q, list, key)
    ensures AreRows(q, list, rs.elems, rows)
  {
    var built: seq<Json> := [];
    for i := 0 to |rs.elems|
      invariant |built| == i
      invariant forall j | 0 <= j < i :: IsRow(q, list, rs.elems[j], built[j])
    {
      var row := BuildRow(q, rs.elems[i], rs.keys);
      assert IsRow(q, list, rs.elems[i], Obj(row));
      built := built + [Obj(row)];
    }
    rows := Arr(built);
  }

  /** The scalars and the columns that the asked paths put in place. */
  ghost predicate Accepted(q: Request, out: map<string, Json>, rows: map<string, RowSet>) {
    (forall p | p in q.asked :: !q.found(p).Missing?) &&
    (forall p | p in q.asked && q.found(p).Scalar? :: p in out && out[p] == q.found(p).value) &&
    (forall p | p in q.asked && q.found(p).Row? ::
       q.found(p).list in rows && rows[q.found(p).list].elems == q.found(p).elems) &&
    (forall key | key in out :: key in q.asked && q.found(key).Scalar?) &&
    (forall list | list in rows :: IsAskedList(q, list)) &&
    forall list, key | list in rows :: key in rows[list].keys <==> IsColumn(q, list, key)
  }

  predicate IsAskedList(q: Request, list: string) {
    exists p :: p in q.asked && q.found(p).Row? && q.found(p).list == list
  }

  function Ask(q: Request, p: string): Request {
    q.(asked := q.asked + {p})
  }

  lemma AcceptScalar(q: Request, p: string, out: map<string, Json>, rows: map<string, RowSet>)
    requires Accepted(q, out, rows) && q.found(p).Scalar?
    ensures Accepted(Ask(q, p), out[p := q.found(p).value], rows)
  {
    ScalarAddsNoColumn(q, p);
    forall list | list in rows ensures IsAskedList(Ask(q, p), list) {
      var a :| a in q.asked && q.found(a).Row? && q.found(a).list == list;
      assert a in Ask(q, p).asked;
    }
  }

  lemma ScalarAddsNoColumn(q: Request, p: string)
    requires q.found(p).Scalar?
    ensures forall list, key :: IsColumn(Ask(q, p), list, key) <==> IsColumn(q, list, key)
  {
  }

  lemma RowAddsColumn(q: Request, p: string)
    requires q.found(p).Row?
    ensures forall list, key :: IsColumn(Ask(q, p), list, key) <==>
              IsColumn(q, list, key) || (list == q.found(p).list && key == q.found(p).key)
  {
    assert p in Ask(q, p).asked;
  }

  lemma NoColumnYet(q: Request, out: map<string, Json>, rows: map<string, RowSet>, list: string)
    requires Accepted(q, out, rows) && list !in rows
    ensures forall key :: !IsColumn(q, list, key)
  {
  }

  lemma AcceptRow(q: Request, p: string, out: map<string, Json>, rows: map<string, RowSet>, keys: seq<string>)
    requires Accepted(q, out, rows) && Consistent(q) && q.found(p).Row?
    requires keys == if q.found(p).list in rows then rows[q.found(p).list].keys else []
    ensures Accepted(Ask(q, p), out, rows[q.found(p).list := RowSet(q.found(p).elems, keys + [q.found(p).key])])
  {
    var f := q.found(p);
    RowAddsColumn(q, p);
    if f.list !in rows {
      NoColumnYet(q, out, rows, f.list);
    }
    var next := rows[f.list := RowSet(f.elems, keys + [f.key])];
    forall list | list in next ensures IsAskedList(Ask(q, p), list) {
      if list == f.list {
        assert p in Ask(q, p).asked;
      } else {
        var a :| a in q.asked && q.found(a).Row? && q.found(a).list == list;
        assert a in Ask(q, p).asked;
      }
    }
  }

  method BuildAll(q: Request, scalars: map<string, Json>, rows: map<string, RowSet>, order: seq<string>)
    returns (out: map<string, Json>)
    requires Accepted(q, scalars, rows) && Consistent(q) && forall a :: a in order <==> a in rows
    ensures IsSelection(q, out)
  {
    out := scalars;
    for i := 0 to |order|
      invariant forall key :: key in out <==> key in scalars || key in order[..i]
      invariant forall key | key in out && key !in order[..i] :: out[key] == scalars[key]
      invariant forall a | a in order[..i] :: a in rows && AreRows(q, a, rows[a].elems, out[a])
    {
      assert order[..i + 1] == order[..i] + [order[i]] && order[i] in order;
      var built := BuildRows(q, order[i], rows[order[i]]);
      out := out[order[i] := built];
    }
    assert order[..|order|] == order;
    Selected(q, scalars, rows, out);
  }

  /** Scalars and rows together are the selection: no row key hides a scalar. */
  lemma Selected(q: Request, scalars: map<string, Json>, rows: map<string, RowSet>, out: map<string, Json>)
    requires Accepted(q, scalars, rows) && Consistent(q)
    requires forall key :: key in out <==> key in scalars || key in rows
    requires forall key | key in out && key !in rows :: out[key] == scalars[key]
    requires forall a | a in rows :: AreRows(q, a, rows[a].elems, out[a])
    ensures IsSelection(q, out)
  {
    assert forall list | list in rows :: IsAskedList(q, list);
    forall key | key in out ensures Belongs(q, key) {
      if key in rows {
        var b :| b in q.asked && q.found(b).Row? && q.found(b).list == key;
      } else {
        assert key in q.asked && q.found(key).Scalar?;
      }
    }
  }

  // Selecting from a reply

  function AskedIn(paths: seq<string>): (r: set<string>)
    ensures "" !in r
  {
    if paths == [] then {}
    else
      var rest, p := AskedIn(paths[..|paths| - 1]), TrimSpace(paths[|paths| - 1]);
      if p == "" then rest else rest + {p}
  }

  function Column(e: Json, key: string): Option<Json> {
    Pluck(e, Split(key, '.'))
  }

  function RequestFor(v: Json, asked: set<string>): Request {
    Request(p => Resolve(v, p), Column, asked)
  }

  lemma ReplyIsConsistent(v: Json, asked: set<string>)
    ensures Consistent(RequestFor(v, asked))
  {
    forall a, b | Resolve(v, a).Row? && Resolve(v, b).Row? && Resolve(v, a).list == Resolve(v, b).list
      ensures Resolve(v, a).elems == Resolve(v, b).elems
    {
      SameArraySameElems(v, a, b);
    }
    forall a, b | Resolve(v, a).Scalar? && Resolve(v, b).Row? ensures a != Resolve(v, b).list {
      ScalarIsNoRowKey(v, a, b);
    }
  }

  lemma {:induction false} AskedAt(paths: seq<string>, i: nat)
    requires i < |paths| && TrimSpace(paths[i]) != ""
    ensures TrimSpace(paths[i]) in AskedIn(paths)
  {
    if i < |paths| - 1 {
      AskedAt(paths[..|paths| - 1], i);
    }
  }

  lemma ListWasAsked(q: Request, out: map<string, Json>, rows: map<string, RowSet>, order: seq<string>)
    requires Accepted(q, out, rows) && order != [] && forall a :: a in order <==> a in rows
    ensures q.asked != {}
  {
    assert order[0] in order && IsAskedList(q, order[0]);
  }

  lemma AcceptedSomething(q: Request, out: map<string, Json>, rows: map<string, RowSet>, order: seq<string>)
    requires Accepted(q, out, rows) && forall a :: a in order <==> a in rows
    ensures |out| == 0 && |order| == 0 <==> q.asked == {}
  {
    if q.asked == {} {
      assert out.Keys == {};
      if order != [] {
        ListWasAsked(q, out, rows, order);
      }
    } else {
      var p :| p in q.asked;
      if q.found(p).Scalar? {
        assert p in out.Keys;
      } else {
        assert q.found(p).list in order;
      }
    }
  }

  datatype SelectError = NoSuchPath(path: string) | NoPaths

  method SelectPaths(v: Json, paths: seq<string>) returns (r: Result<map<string, Json>, SelectError>)
    ensures r.Ok? ==> AskedIn(paths) != {} && IsSelection(RequestFor(v, AskedIn(paths)), r.value)
    ensures r.Err? && r.error.NoSuchPath? ==> r.error.path in AskedIn(paths) && Resolve(v, r.error.path).Missing?
    ensures r.Err? && r.error.NoPaths? ==> AskedIn(paths) == {}
  {
    var out: map<string, Json>, rows: map<string, RowSet>, order: seq<string> := map[], map[], [];
    ghost var q := RequestFor(v, {});
    for i := 0 to |paths|
      invariant q == RequestFor(v, AskedIn(paths[..i])) && Accepted(q, out, rows)
      invariant forall a :: a in order <==> a in rows
    {
      assert paths[..i + 1][..i] == paths[..i];
      var p := TrimSpace(paths[i]);
      if p == "" {
        continue;
      }
      ReplyIsConsistent(v, q.asked);
      match Resolve(v, p) {
        case Missing =>
          AskedAt(paths, i);
          return Err(NoSuchPath(p));
        case Scalar(x) =>
          AcceptScalar(q, p, out, rows);
          out := out[p := x];
        case Row(list, elems, rest, key) =>
          var keys := if list in rows then rows[list].keys else [];
          AcceptRow(q, p, out, rows, keys);
          if list !in rows {
            order := order + [list];
          }
          rows := rows[list := RowSet(elems, keys + [key])];
      }
      q := Ask(q, p);
    }
    assert paths[..|paths|] == paths;
    AcceptedSomething(q, out, rows, order);
    if |out| == 0 && |order| == 0 {
      return Err(NoPaths);
    }
    ReplyIsConsistent(v, q.asked);
    var all := BuildAll(RequestFor(v, AskedIn(paths)), out, rows, order);
    return Ok(all);
  }

  // What a selection promises

  /** A selection is determined by what was asked and what was found. */
  lemma SelectionUnique(q: Request, a: map<string, Json>, b: map<string, Json>)
    requires IsSelection(q, a) && IsSelection(q, b)
    ensures a == b
  {
    SelectionIncluded(q, a, b);
    SelectionIncluded(q, b, a);
    assert a.Keys == b.Keys;
  }

  lemma SelectionIncluded(q: Request, a: map<string, Json>, b: map<string, Json>)
    requires IsSelection(q, a) && IsSelection(q, b)
    ensures forall key | key in a :: key in b && a[key] == b[key]
  {
    forall key | key in a ensures key in b && a[key] == b[key] {
      assert Belongs(q, key);
      var p :| p in q.asked && ((q.found(p).Scalar? && key == p) || (q.found(p).Row? && key == q.found(p).list));
      if q.found(p).Row? {
        SameRows(q, key, q.found(p).elems, a[key], b[key]);
      }
    }
  }

  lemma SameRows(q: Request, list: string, elems: seq<Json>, a: Json, b: Json)
    requires AreRows(q, list, elems, a) && AreRows(q, list, elems, b)
    ensures a == b
  {
    forall i | 0 <= i < |elems| ensures a.items[i] == b.items[i] {
      SameRow(q, list, elems[i], a.items[i], b.items[i]);
    }
    assert a.items == b.items;
  }

  lemma SameRow(q: Request, list: string, e: Json, x: Json, y: Json)
    requires IsRow(q, list, e, x) && IsRow(q, list, e, y)
    ensures x == y
  {
    assert forall key :: key in x.fields <==> key in y.fields;
    assert x.fields == y.fields;
  }

  /** Row i holds the field of a path exactly when the element resolves it. */
  predicate Aligned(e: Json, row: Json, key: string, rest: seq<string>) {
    row.Obj? && (key in row.fields <==> Pluck(e, rest).Some?) &&
    (key in row.fields ==> row.fields[key] == Pluck(e, rest).value)
  }

  lemma RowAligns(q: Request, list: string, e: Json, row: Json, key: string, rest: seq<string>)
    requires IsRow(q, list, e, row) && IsColumn(q, list, key) && q.column(e, key) == Pluck(e, rest)
    ensures Aligned(e, row, key, rest)
  {
  }

  /** The rows of an array are one for each element, in order. */
  predicate HasRows(f: Found, out: map<string, Json>) {
    f.Row? && f.list in out && out[f.list].Arr? && |out[f.list].items| == |f.elems|
  }

  /** Row i holds the field exactly when element i resolves the parts. */
  predicate AllAligned(f: Found, out: map<string, Json>, parts: seq<string>)
    requires HasRows(f, out)
  {
    forall i | 0 <= i < |f.elems| :: Aligned(f.elems[i], out[f.list].items[i], f.key, parts)
  }

  lemma RowsHoldWhatIsAsked(v: Json, asked: set<string>, out: map<string, Json>, p: string)
    requires IsSelection(RequestFor(v, asked), out) && p in asked && Resolve(v, p).Row?
    ensures HasRows(Resolve(v, p), out) && AllAligned(Resolve(v, p), out, Asks(Resolve(v, p).rest))
  {
    var q := RequestFor(v, asked);
    var f := q.found(p);
    RemainderReads(v, p);
    assert AreRows(q, f.list, f.elems, out[f.list]);
    assert IsColumn(q, f.list, f.key);
    forall i | 0 <= i < |f.elems| ensures Aligned(f.elems[i], out[f.list].items[i], f.key, Asks(f.rest)) {
      assert q.column(f.elems[i], f.key) == Column(f.elems[i], f.key);
      RowAligns(q, f.list, f.elems[i], out[f.list].items[i], f.key, Asks(f.rest));
    }
  }

  /** Row alignment. An asked path that crosses an array gives one row for each
      element, in order. Each row holds the field of its path exactly when its
      element resolves the rest of the path, with that value, if and only if the
      path goes below the array; some row then holds it. A path that ends at the
      array gives rows of the elements' fields with the empty name instead of
      the elements. */
  lemma RowsAlign(v: Json, asked: set<string>, out: map<string, Json>, p: string)
    requires IsSelection(RequestFor(v, asked), out) && p in asked && Resolve(v, p).Row?
    ensures HasRows(Resolve(v, p), out)
    ensures AllAligned(Resolve(v, p), out, Resolve(v, p).rest) <==> Resolve(v, p).rest != []
    ensures Resolve(v, p).rest == [] ==> Resolve(v, p).key == "" && AllAligned(Resolve(v, p), out, [""])
    ensures Resolve(v, p).rest != [] ==>
      exists i :: 0 <= i < |Resolve(v, p).elems| && Resolve(v, p).key in out[Resolve(v, p).list].items[i].fields
  {
    var f := Resolve(v, p);
    RowsHoldWhatIsAsked(v, asked, out, p);
    SomeElementHas(v, p);
    var i :| 0 <= i < |f.elems| && Pluck(f.elems[i], f.rest).Some?;
    assert Aligned(f.elems[i], out[f.list].items[i], f.key, Asks(f.rest));
    if f.rest == [] {
      EmptyNameIsNotItself(f.elems[i]);
      assert !Aligned(f.elems[i], out[f.list].items[i], f.key, f.rest);
    }
  }

  lemma SomeElementHas(v: Json, p: string)
    requires Resolve(v, p).Row?
    ensures exists i :: 0 <= i < |Resolve(v, p).elems| && Pluck(Resolve(v, p).elems[i], Resolve(v, p).rest).Some?
  {
  }
}
