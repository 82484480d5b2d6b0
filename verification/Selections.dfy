/** What a selection reads from a reply, said with the addresses of its values:
    a path leads through keys, and through every item of the arrays it meets. */
module Selections {
  import opened Text
  import opened Json
  import opened Addresses
  import opened Select

  // Paths as addresses

  /** The keys named one after the other. */
  function Keys(parts: seq<string>): Address {
    seq(|parts|, i requires 0 <= i < |parts| => Key(parts[i]))
  }

  /** The address goes by these keys, and only by items before them. */
  predicate GoesBy(a: Address, parts: seq<string>)
    decreases |a|
  {
    if a == [] then parts == []
    else
      match a[0]
      case Key(name) => parts != [] && name == parts[0] && GoesBy(a[1..], parts[1..])
      case Item(_) => parts != [] && GoesBy(a[1..], parts)
  }

  /** Some value of v stands at the end of the parts. */
  ghost predicate Leads(v: Json, parts: seq<string>) {
    exists a :: GoesBy(a, parts) && ValueAt(v, a).Some?
  }

  lemma KeysFrom(parts: seq<string>)
    requires parts != []
    ensures Keys(parts)[0] == Key(parts[0]) && Keys(parts)[1..] == Keys(parts[1..])
  {
  }

  // What is plucked

  /** The places of a list that resolve the parts. */
  function Hits(items: seq<Json>, parts: seq<string>, n: nat): (r: seq<nat>)
    requires n <= |items|
    ensures forall k: nat :: k in r <==> k < n && Pluck(items[k], parts).Some?
    ensures forall i, j | 0 <= i < j < |r| :: r[i] < r[j]
  {
    if n == 0 then []
    else
      var before := Hits(items, parts, n - 1);
      assert forall i | 0 <= i < |before| :: before[i] in before;
      before + if Pluck(items[n - 1], parts).Some? then [n - 1] else []
  }

  lemma {:induction false} PluckAllSnoc(items: seq<Json>, x: Json, parts: seq<string>)
    ensures PluckAll(items + [x], parts) ==
      PluckAll(items, parts) + match Pluck(x, parts) case None => [] case Some(y) => [y]
  {
    if items == [] {
      assert items + [x] == [x] && [x][1..] == [];
    } else {
      assert (items + [x])[0] == items[0] && (items + [x])[1..] == items[1..] + [x];
      PluckAllSnoc(items[1..], x, parts);
    }
  }

  lemma {:induction false} PluckAllIs(items: seq<Json>, parts: seq<string>, n: nat)
    requires n <= |items|
    ensures var ks := Hits(items, parts, n);
      |PluckAll(items[..n], parts)| == |ks| &&
      forall j | 0 <= j < |ks| :: ks[j] < n && Pluck(items[ks[j]], parts) == Some(PluckAll(items[..n], parts)[j])
  {
    if n > 0 {
      var x := items[n - 1];
      assert items[..n] == items[..n - 1] + [x];
      PluckAllSnoc(items[..n - 1], x, parts);
      PluckAllIs(items, parts, n - 1);
    }
  }

  /** A list is plucked item by item, in order, without those that lack the parts;
      it resolves when one of them does. */
  lemma PluckMaps(items: seq<Json>, parts: seq<string>) returns (places: seq<nat>)
    requires parts != []
    ensures (forall k: nat :: k in places <==> k < |items| && Pluck(items[k], parts).Some?) &&
      forall i, j | 0 <= i < j < |places| :: places[i] < places[j]
    ensures Pluck(Arr(items), parts).Some? <==> places != []
    ensures places != [] ==>
      var r := Pluck(Arr(items), parts).value;
      r.Arr? && |r.items| == |places| &&
      forall j | 0 <= j < |places| :: places[j] < |items| && Pluck(items[places[j]], parts) == Some(r.items[j])
  {
    places := Hits(items, parts, |items|);
    PluckAllIs(items, parts, |items|);
    assert items[..|items|] == items;
  }

  lemma ItemLeads(v: Json, parts: seq<string>, k: nat)
    requires v.Arr? && k < |v.items| && parts != [] && Leads(v.items[k], parts)
    ensures Leads(v, parts)
  {
    var a :| GoesBy(a, parts) && ValueAt(v.items[k], a).Some?;
    var b := [Item(k)] + a;
    assert b[0] == Item(k) && b[1..] == a;
    assert GoesBy(b, parts) && ValueAt(v, b).Some?;
  }

  lemma FieldLeads(v: Json, parts: seq<string>)
    requires v.Obj? && parts != [] && parts[0] in v.fields && Leads(v.fields[parts[0]], parts[1..])
    ensures Leads(v, parts)
  {
    var a :| GoesBy(a, parts[1..]) && ValueAt(v.fields[parts[0]], a).Some?;
    var b := [Key(parts[0])] + a;
    assert b[0] == Key(parts[0]) && b[1..] == a;
    assert GoesBy(b, parts) && ValueAt(v, b).Some?;
  }

  lemma LeadsOn(v: Json, parts: seq<string>)
    requires parts != [] && Leads(v, parts)
    ensures v.Obj? ==> parts[0] in v.fields && Leads(v.fields[parts[0]], parts[1..])
    ensures v.Arr? ==> exists k :: 0 <= k < |v.items| && Leads(v.items[k], parts)
    ensures v.Obj? || v.Arr?
  {
    var a :| GoesBy(a, parts) && ValueAt(v, a).Some?;
    match a[0]
    case Key(name) =>
      assert GoesBy(a[1..], parts[1..]) && ValueAt(v.fields[name], a[1..]).Some?;
    case Item(k) =>
      assert GoesBy(a[1..], parts) && ValueAt(v.items[k], a[1..]).Some?;
  }

  /** A path resolves exactly when some address goes by its parts. */
  lemma {:induction false} PluckLeads(v: Json, parts: seq<string>)
    ensures Pluck(v, parts).Some? <==> Leads(v, parts)
    decreases v, |parts|
  {
    if parts == [] {
      assert GoesBy([], parts) && ValueAt(v, []).Some?;
    } else {
      match v
      case Obj(fields) =>
        if parts[0] in fields {
          PluckLeads(fields[parts[0]], parts[1..]);
        }
        FieldOrNone(v, parts);
      case Arr(items) =>
        var places := PluckMaps(items, parts);
        forall k: nat | k < |items| ensures Pluck(items[k], parts).Some? <==> Leads(items[k], parts) {
          PluckLeads(items[k], parts);
        }
        ItemOrNone(v, parts, places);
      case _ =>
        if Leads(v, parts) {
          LeadsOn(v, parts);
        }
    }
  }

  lemma FieldOrNone(v: Json, parts: seq<string>)
    requires v.Obj? && parts != []
    ensures Leads(v, parts) <==> parts[0] in v.fields && Leads(v.fields[parts[0]], parts[1..])
  {
    if Leads(v, parts) {
      LeadsOn(v, parts);
    }
    if parts[0] in v.fields && Leads(v.fields[parts[0]], parts[1..]) {
      FieldLeads(v, parts);
    }
  }

  lemma ItemOrNone(v: Json, parts: seq<string>, places: seq<nat>)
    requires v.Arr? && parts != []
    requires forall k: nat :: k in places <==> k < |v.items| && Leads(v.items[k], parts)
    ensures Leads(v, parts) <==> places != []
  {
    if Leads(v, parts) {
      LeadsOn(v, parts);
      var k: nat :| k < |v.items| && Leads(v.items[k], parts);
      assert k in places;
    }
    if places != [] {
      assert places[0] in places;
      ItemLeads(v, parts, places[0]);
    }
  }

  // The array a path crosses

  /** The first array of a path is the value at a prefix of its keys. */
  lemma {:induction false} FirstArrayIs(v: Json, parts: seq<string>, count: nat, elems: seq<Json>)
    requires 0 < count <= |parts|
    ensures FirstArray(v, parts) == At(count, elems) <==> ValueAt(v, Keys(parts[..count])) == Some(Arr(elems))
    decreases |parts|
  {
    KeysFrom(parts[..count]);
    if v.Obj? && parts[0] in v.fields {
      var next := v.fields[parts[0]];
      assert parts[..count][1..] == parts[1..][..count - 1];
      if count == 1 {
        assert Keys(parts[..1][1..]) == [];
      } else if !next.Arr? {
        FirstArrayIs(next, parts[1..], count - 1, elems);
      } else {
        KeysFrom(parts[..count][1..]);
      }
    }
  }

  /** Where no prefix of the keys leads to an array, the value plucked is the one
      at the keys. */
  lemma {:induction false} PluckWithoutArrays(v: Json, parts: seq<string>)
    requires FirstArray(v, parts).NoArray? && !v.Arr?
    ensures Pluck(v, parts) == ValueAt(v, Keys(parts))
    decreases |parts|
  {
    if parts != [] {
      KeysFrom(parts);
      if v.Obj? && parts[0] in v.fields {
        PluckWithoutArrays(v.fields[parts[0]], parts[1..]);
      }
    }
  }

  // What a path stands for

  /** The path leads to an array, and asks for the rest of it. */
  predicate CrossesAt(v: Json, parts: seq<string>, count: nat, elems: seq<Json>) {
    0 < count <= |parts| && ValueAt(v, Keys(parts[..count])) == Some(Arr(elems))
  }

  ghost predicate Crosses(v: Json, parts: seq<string>) {
    exists count, elems :: CrossesAt(v, parts, count, elems)
  }

  lemma CrossesWhenFirst(v: Json, parts: seq<string>)
    ensures Crosses(v, parts) <==> FirstArray(v, parts).At?
  {
    if count, elems :| CrossesAt(v, parts, count, elems) {
      FirstArrayIs(v, parts, count, elems);
    }
    if FirstArray(v, parts).At? {
      var c := FirstArray(v, parts);
      FirstArrayIs(v, parts, c.count, c.elems);
      assert CrossesAt(v, parts, c.count, c.elems);
    }
  }

  lemma {:induction false} JoinParts(a: seq<string>, b: seq<string>)
    requires a != [] && b != []
    ensures Join(a + b, '.') == Join(a, '.') + "." + Join(b, '.')
  {
    if |a| == 1 {
      assert (a + b)[1..] == b;
    } else {
      assert (a + b)[0] == a[0] && (a + b)[1..] == a[1..] + b;
      JoinParts(a[1..], b);
    }
  }

  /** A path that crosses an array stands for its rows: it is the name of the
      array, then a dot and the key of the column. It is missing when no element
      resolves what is left of it. */
  lemma RowReads(v: Json, path: string, count: nat, elems: seq<Json>)
    requires CrossesAt(v, Split(path, '.'), count, elems)
    ensures var parts := Split(path, '.');
      if exists e :: e in elems && Leads(e, parts[count..]) then
        Resolve(v, path).Row? && Resolve(v, path).elems == elems && Resolve(v, path).rest == parts[count..] &&
        Resolve(v, path).list == Join(parts[..count], '.') &&
        path == if count == |parts| then Resolve(v, path).list else Resolve(v, path).list + "." + Resolve(v, path).key
      else Resolve(v, path).Missing?
  {
    var parts := Split(path, '.');
    FirstArrayIs(v, parts, count, elems);
    forall e | e in elems ensures Pluck(e, parts[count..]).Some? <==> Leads(e, parts[count..]) {
      PluckLeads(e, parts[count..]);
    }
    JoinSplit(path, '.');
    if count < |parts| {
      JoinParts(parts[..count], parts[count..]);
      assert parts[..count] + parts[count..] == parts;
    } else {
      assert parts[..count] == parts;
    }
  }

  /** A path that crosses none stands for the value at its keys. */
  lemma ScalarReads(v: Json, path: string)
    requires !Crosses(v, Split(path, '.')) && !v.Arr?
    ensures Resolve(v, path) == match ValueAt(v, Keys(Split(path, '.'))) case None => Missing case Some(x) => Scalar(x)
  {
    CrossesWhenFirst(v, Split(path, '.'));
    PluckWithoutArrays(v, Split(path, '.'));
  }

  /** In a reply that is itself an array a path stands for what its elements
      resolve. */
  lemma ListReads(v: Json, path: string)
    requires v.Arr?
    ensures Resolve(v, path) == match Pluck(v, Split(path, '.')) case None => Missing case Some(x) => Scalar(x)
  {
  }

  // The paths that are asked for

  /** The asked paths are the given ones without the blanks around them, the
      empty ones aside. */
  lemma {:induction false} AskedAre(paths: seq<string>, p: string)
    ensures p in AskedIn(paths) <==> p != "" && exists i :: 0 <= i < |paths| && TrimSpace(paths[i]) == p
  {
    if paths != [] {
      var init, last := paths[..|paths| - 1], paths[|paths| - 1];
      assert paths == init + [last];
      AskedAre(init, p);
      if i :| 0 <= i < |init| && TrimSpace(init[i]) == p {
        assert paths[i] == init[i];
      }
      if i :| 0 <= i < |paths| && TrimSpace(paths[i]) == p {
        assert i < |init| ==> init[i] == paths[i];
      }
      assert paths[|init|] == last;
    }
  }
}
