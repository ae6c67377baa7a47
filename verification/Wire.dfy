/** Canonical JSON, at the level of tokens: a writer that sorts the fields of every object, and a parser
    for the grammar of sections 2 to 5 of RFC 8259. */
module Wire {
  import opened Basics

  /** Null, booleans, numbers and strings, printed by the JSON library. */
  datatype Scalar = Null | Bool(b: bool) | Number(text: string) | Text(text: string)

  /** An object lists its fields in the order its map iterates them. */
  datatype Json = Scalar(scalar: Scalar) | Array(items: seq<Json>) | Object(fields: seq<Field>)

  datatype Field = Field(name: string, value: Json)

  datatype Token = OpenArray | CloseArray | OpenObject | CloseObject | Comma | Colon | Literal(scalar: Scalar)

  // ---- The order of names ----

  /** Strings compare by code point, which is how their UTF-8 bytes compare. */
  predicate Less(a: string, b: string) {
    b != [] && (a == [] || a[0] < b[0] || (a[0] == b[0] && Less(a[1..], b[1..])))
  }

  /** The first position at which two names differ decides, and a name comes before its extensions. */
  ghost predicate DiffersAt(a: string, b: string, k: nat) {
    k <= |a| && k < |b| && a[..k] == b[..k] && (k == |a| || a[k] < b[k])
  }

  lemma {:induction false} LessByFirstDifference(a: string, b: string)
    ensures Less(a, b) <==> exists k :: DiffersAt(a, b, k)
  {
    if b != [] && (a == [] || a[0] < b[0]) {
      assert DiffersAt(a, b, 0);
    } else if a != [] && b != [] && a[0] == b[0] {
      LessByFirstDifference(a[1..], b[1..]);
      if Less(a, b) {
        var k: nat :| DiffersAt(a[1..], b[1..], k);
        assert a[..k + 1] == [a[0]] + a[1..][..k] && b[..k + 1] == [b[0]] + b[1..][..k];
        assert DiffersAt(a, b, k + 1);
      }
      if k: nat :| DiffersAt(a, b, k) {
        DiffersLater(a, b, k);
      }
    } else {
      forall k: nat ensures !DiffersAt(a, b, k) {
        if 0 < k <= |a| && k < |b| {
          assert a[..k][0] == a[0] && b[..k][0] == b[0];
        }
      }
    }
  }

  lemma DiffersLater(a: string, b: string, k: nat)
    requires a != [] && b != [] && a[0] == b[0] && DiffersAt(a, b, k)
    ensures k > 0 && DiffersAt(a[1..], b[1..], k - 1)
  {
    assert a[1..][..k - 1] == a[..k][1..] && b[1..][..k - 1] == b[..k][1..];
  }

  lemma {:induction false} LessOrders(a: string, b: string)
    ensures (Less(a, b) || Less(b, a)) <==> a != b
    ensures !(Less(a, b) && Less(b, a))
  {
    if a != [] && b != [] && a[0] == b[0] {
      LessOrders(a[1..], b[1..]);
      assert a == [a[0]] + a[1..] && b == [b[0]] + b[1..];
    }
  }

  lemma {:induction false} LessChains(a: string, b: string, c: string)
    requires Less(a, b) && Less(b, c)
    ensures Less(a, c)
  {
    if a != [] && a[0] == b[0] && b[0] == c[0] {
      LessChains(a[1..], b[1..], c[1..]);
    }
  }

  // ---- Sorting fields ----

  ghost function Names(fields: seq<Field>): set<string> {
    set i | 0 <= i < |fields| :: fields[i].name
  }

  ghost predicate DistinctNames(fields: seq<Field>) {
    forall i, j :: 0 <= i < j < |fields| ==> fields[i].name != fields[j].name
  }

  ghost predicate Ascending(fields: seq<Field>) {
    forall i, j :: 0 <= i < j < |fields| ==> Less(fields[i].name, fields[j].name)
  }

  ghost predicate SameFields(a: seq<Field>, b: seq<Field>) {
    forall f :: f in a <==> f in b
  }

  function Insert(f: Field, fields: seq<Field>): (r: seq<Field>)
    ensures forall g :: g in r <==> g == f || g in fields
  {
    if fields == [] then [f]
    else if Less(f.name, fields[0].name) then [f] + fields
    else
      assert fields == [fields[0]] + fields[1..];
      [fields[0]] + Insert(f, fields[1..])
  }

  function Sort(fields: seq<Field>): (r: seq<Field>)
    ensures SameFields(r, fields)
  {
    if fields == [] then []
    else
      assert fields == [fields[0]] + fields[1..];
      Insert(fields[0], Sort(fields[1..]))
  }

  lemma {:induction false} InsertAscends(f: Field, fields: seq<Field>)
    requires Ascending(fields) && forall g :: g in fields ==> g.name != f.name
    ensures Ascending(Insert(f, fields))
  {
    if fields != [] {
      var first, rest := fields[0], fields[1..];
      if Less(f.name, first.name) {
        forall j | 0 <= j < |fields| ensures Less(f.name, fields[j].name) {
          if j > 0 {
            LessChains(f.name, first.name, fields[j].name);
          }
        }
      } else {
        LessOrders(f.name, first.name);
        InsertAscends(f, rest);
        var r := Insert(f, rest);
        forall j | 0 <= j < |r| ensures Less(first.name, r[j].name) {
          assert r[j] in r;
          if r[j] != f {
            var k :| 0 <= k < |rest| && rest[k] == r[j];
            assert fields[k + 1] == r[j];
          }
        }
      }
    }
  }

  lemma {:induction false} SortAscends(fields: seq<Field>)
    requires DistinctNames(fields)
    ensures Ascending(Sort(fields)) && DistinctNames(Sort(fields))
  {
    if fields != [] {
      SortAscends(fields[1..]);
      InsertAscends(fields[0], Sort(fields[1..]));
    }
    AscendingIsDistinct(Sort(fields));
  }

  lemma AscendingIsDistinct(fields: seq<Field>)
    requires Ascending(fields)
    ensures DistinctNames(fields)
  {
    forall i, j | 0 <= i < j < |fields| ensures fields[i].name != fields[j].name {
      LessOrders(fields[i].name, fields[j].name);
    }
  }

  lemma NoNames(fields: seq<Field>)
    ensures Names(fields) == {} <==> fields == []
  {
    if fields != [] {
      assert fields[0].name in Names(fields);
    }
  }

  /** Two ascending lists with the same names have them in the same places. */
  lemma {:induction false} OneOrder(a: seq<Field>, b: seq<Field>)
    requires Ascending(a) && Ascending(b) && Names(a) == Names(b)
    ensures |a| == |b| && forall i :: 0 <= i < |a| ==> a[i].name == b[i].name
  {
    if a == [] {
      NoNames(a);
      NoNames(b);
    } else {
      assert a[0].name in Names(b);
      SameHead(a, b);
      SameTailNames(a, b);
      OneOrder(a[1..], b[1..]);
      forall i | 0 <= i < |a| ensures a[i].name == b[i].name {
        if i > 0 {
          assert a[i] == a[1..][i - 1] && b[i] == b[1..][i - 1];
        }
      }
    }
  }

  lemma SameHead(a: seq<Field>, b: seq<Field>)
    requires Ascending(a) && Ascending(b) && Names(a) == Names(b) && a != []
    ensures b != [] && a[0].name == b[0].name
  {
    assert a[0].name in Names(b);
    var j :| 0 <= j < |b| && b[j].name == a[0].name;
    assert b[0].name in Names(a);
    var i :| 0 <= i < |a| && a[i].name == b[0].name;
    LessOrders(a[0].name, b[0].name);
  }

  lemma SameTailNames(a: seq<Field>, b: seq<Field>)
    requires Ascending(a) && Ascending(b) && Names(a) == Names(b)
    requires a != [] && b != [] && a[0].name == b[0].name
    ensures Names(a[1..]) == Names(b[1..])
  {
    TailNames(a);
    TailNames(b);
  }

  lemma TailNames(a: seq<Field>)
    requires Ascending(a) && a != []
    ensures Names(a[1..]) == Names(a) - {a[0].name}
  {
    AscendingIsDistinct(a);
    var tail := a[1..];
    forall n | n in Names(a) && n != a[0].name ensures n in Names(tail) {
      var i :| 0 <= i < |a| && a[i].name == n;
      assert tail[i - 1].name == n;
    }
    forall n | n in Names(tail) ensures n in Names(a) && n != a[0].name {
      var i :| 0 <= i < |tail| && tail[i].name == n;
      assert a[i + 1].name == n;
    }
  }

  // ---- Values ----

  /** The map behind an object has one field per name. */
  ghost predicate WellFormed(v: Json) {
    match v
    case Scalar(_) => true
    case Array(items) => forall i :: 0 <= i < |items| ==> WellFormed(items[i])
    case Object(fields) => DistinctNames(fields) && forall i :: 0 <= i < |fields| ==> WellFormed(fields[i].value)
  }

  /** Equal up to the order of fields, at every depth. */
  ghost predicate Same(v: Json, w: Json)
    decreases v
  {
    match v
    case Scalar(_) => v == w
    case Array(items) =>
      w.Array? && |items| == |w.items| && forall i :: 0 <= i < |items| ==> Same(items[i], w.items[i])
    case Object(fields) =>
      && w.Object? && Names(fields) == Names(w.fields)
      && forall i, j :: 0 <= i < |fields| && 0 <= j < |w.fields| && fields[i].name == w.fields[j].name ==>
           Same(fields[i].value, w.fields[j].value)
  }

  /** The value with its fields sorted at every depth. */
  function Sorted(v: Json): Json
    decreases v
  {
    match v
    case Scalar(_) => v
    case Array(items) => Array(seq(|items|, i requires 0 <= i < |items| => Sorted(items[i])))
    case Object(fields) =>
      var sorted := Sort(fields);
      Object(seq(|sorted|, i requires 0 <= i < |sorted| =>
        assert sorted[i] in fields;
        Field(sorted[i].name, Sorted(sorted[i].value))))
  }

  /** What ascending means at every depth. */
  ghost predicate InOrder(v: Json) {
    match v
    case Scalar(_) => true
    case Array(items) => forall i :: 0 <= i < |items| ==> InOrder(items[i])
    case Object(fields) => Ascending(fields) && forall i :: 0 <= i < |fields| ==> InOrder(fields[i].value)
  }

  /** The sorted value has its fields in order at every depth and is the same value otherwise. */
  lemma {:induction false} SortedIsSame(v: Json)
    requires WellFormed(v)
    ensures InOrder(Sorted(v)) && Same(v, Sorted(v))
    decreases v
  {
    match v
    case Scalar(_) =>
    case Array(items) =>
      forall i | 0 <= i < |items| ensures InOrder(Sorted(items[i])) && Same(items[i], Sorted(items[i])) {
        SortedIsSame(items[i]);
      }
    case Object(fields) =>
      forall i | 0 <= i < |fields|
        ensures InOrder(Sorted(fields[i].value)) && Same(fields[i].value, Sorted(fields[i].value))
      {
        SortedIsSame(fields[i].value);
      }
      SortedObject(fields);
  }

  /** The fields of a sorted object are the sorted fields, in ascending order, one for one. */
  lemma SortedFields(fields: seq<Field>)
    requires DistinctNames(fields)
    ensures var out := Sorted(Object(fields)).fields;
            && Ascending(out) && Names(out) == Names(fields)
            && forall i, j :: 0 <= i < |fields| && 0 <= j < |out| && fields[i].name == out[j].name ==>
                 out[j].value == Sorted(fields[i].value)
  {
    SortAscends(fields);
    var sorted, out := Sort(fields), Sorted(Object(fields)).fields;
    assert forall j :: 0 <= j < |out| ==> out[j].name == sorted[j].name;
    assert Names(out) == Names(sorted);
    NamesOfSame(sorted, fields);
    forall i, j | 0 <= i < |fields| && 0 <= j < |out| && fields[i].name == out[j].name
      ensures out[j].value == Sorted(fields[i].value)
    {
      assert sorted[j] in fields;
      var k :| 0 <= k < |fields| && fields[k] == sorted[j];
      assert k == i;
    }
  }

  lemma NamesOfSame(a: seq<Field>, b: seq<Field>)
    requires SameFields(a, b)
    ensures Names(a) == Names(b)
  {
    forall n | n in Names(a) ensures n in Names(b) {
      var i :| 0 <= i < |a| && a[i].name == n;
      assert a[i] in b;
    }
    forall n | n in Names(b) ensures n in Names(a) {
      var i :| 0 <= i < |b| && b[i].name == n;
      assert b[i] in a;
    }
  }

  lemma SortedObject(fields: seq<Field>)
    requires DistinctNames(fields)
    requires forall i :: 0 <= i < |fields| ==>
               InOrder(Sorted(fields[i].value)) && Same(fields[i].value, Sorted(fields[i].value))
    ensures InOrder(Sorted(Object(fields))) && Same(Object(fields), Sorted(Object(fields)))
  {
    SortedFields(fields);
    var out := Sorted(Object(fields)).fields;
    forall j | 0 <= j < |out| ensures InOrder(out[j].value) {
      assert out[j].name in Names(fields);
      var i :| 0 <= i < |fields| && fields[i].name == out[j].name;
      assert out[j].value == Sorted(fields[i].value);
    }
  }

  /** Sorting decides sameness: two values have one sorted form exactly when they are equal up to the
      order of fields. */
  lemma {:induction false} SortedDecidesSame(v: Json, w: Json)
    requires WellFormed(v) && WellFormed(w)
    ensures Sorted(v) == Sorted(w) <==> Same(v, w)
    decreases v
  {
    if v.Array? && w.Array? && |v.items| == |w.items| {
      forall i | 0 <= i < |v.items| ensures Sorted(v.items[i]) == Sorted(w.items[i]) <==> Same(v.items[i], w.items[i]) {
        SortedDecidesSame(v.items[i], w.items[i]);
      }
      ArraysDecide(v.items, w.items);
    } else if v.Object? && w.Object? {
      forall i, j | 0 <= i < |v.fields| && 0 <= j < |w.fields|
        ensures Sorted(v.fields[i].value) == Sorted(w.fields[j].value) <==> Same(v.fields[i].value, w.fields[j].value)
      {
        SortedDecidesSame(v.fields[i].value, w.fields[j].value);
      }
      ObjectsDecide(v.fields, w.fields);
    } else if v.Array? && w.Array? {
      assert |Sorted(v).items| == |v.items| && |Sorted(w).items| == |w.items|;
    }
  }

  lemma ArraysDecide(a: seq<Json>, b: seq<Json>)
    requires |a| == |b|
    requires forall i :: 0 <= i < |a| ==> (Sorted(a[i]) == Sorted(b[i]) <==> Same(a[i], b[i]))
    ensures Sorted(Array(a)) == Sorted(Array(b)) <==> Same(Array(a), Array(b))
  {
    var x, y := Sorted(Array(a)).items, Sorted(Array(b)).items;
    if x == y {
      forall i | 0 <= i < |a| ensures Same(a[i], b[i]) {
        assert x[i] == y[i];
      }
    }
  }

  lemma ObjectsDecide(a: seq<Field>, b: seq<Field>)
    requires DistinctNames(a) && DistinctNames(b)
    requires forall i, j :: 0 <= i < |a| && 0 <= j < |b| ==>
               (Sorted(a[i].value) == Sorted(b[j].value) <==> Same(a[i].value, b[j].value))
    ensures Sorted(Object(a)) == Sorted(Object(b)) <==> Same(Object(a), Object(b))
  {
    SortedFields(a);
    SortedFields(b);
    if Sorted(Object(a)) == Sorted(Object(b)) {
      OneFormIsSame(a, b);
    } else if Same(Object(a), Object(b)) {
      SameIsOneForm(a, b);
    }
  }

  lemma OneFormIsSame(a: seq<Field>, b: seq<Field>)
    requires DistinctNames(a) && DistinctNames(b) && Sorted(Object(a)) == Sorted(Object(b))
    requires forall i, j :: 0 <= i < |a| && 0 <= j < |b| && Sorted(a[i].value) == Sorted(b[j].value) ==>
               Same(a[i].value, b[j].value)
    ensures Same(Object(a), Object(b))
  {
    SortedFields(a);
    SortedFields(b);
    var out := Sorted(Object(a)).fields;
    forall i, j | 0 <= i < |a| && 0 <= j < |b| && a[i].name == b[j].name ensures Same(a[i].value, b[j].value) {
      assert a[i].name in Names(out);
      var k :| 0 <= k < |out| && out[k].name == a[i].name;
      assert out[k].value == Sorted(a[i].value) && out[k].value == Sorted(b[j].value);
    }
  }

  lemma SameIsOneForm(a: seq<Field>, b: seq<Field>)
    requires DistinctNames(a) && DistinctNames(b) && Same(Object(a), Object(b))
    requires forall i, j :: 0 <= i < |a| && 0 <= j < |b| && Same(a[i].value, b[j].value) ==>
               Sorted(a[i].value) == Sorted(b[j].value)
    ensures Sorted(Object(a)) == Sorted(Object(b))
  {
    SortedFields(a);
    SortedFields(b);
    var x, y := Sorted(Object(a)).fields, Sorted(Object(b)).fields;
    OneOrder(x, y);
    forall k | 0 <= k < |x| ensures x[k] == y[k] {
      assert x[k].name in Names(a) && y[k].name in Names(b);
      var i :| 0 <= i < |a| && a[i].name == x[k].name;
      var j :| 0 <= j < |b| && b[j].name == y[k].name;
      assert x[k].value == Sorted(a[i].value) && y[k].value == Sorted(b[j].value);
    }
  }

  // ---- Printing ----

  /** The tokens of a value, fields in the order they stand. */
  function Plain(v: Json): seq<Token>
    decreases v, 1, 0
  {
    match v
    case Scalar(s) => [Literal(s)]
    case Array(_) => [OpenArray] + ItemsFrom(v, 0) + [CloseArray]
    case Object(_) => [OpenObject] + FieldsFrom(v, 0) + [CloseObject]
  }

  function Separator(k: nat): seq<Token> {
    if k > 0 then [Comma] else []
  }

  function ItemsFrom(v: Json, k: nat): seq<Token>
    requires v.Array? && k <= |v.items|
    decreases v, 0, |v.items| - k
  {
    if k == |v.items| then [] else Separator(k) + Plain(v.items[k]) + ItemsFrom(v, k + 1)
  }

  function FieldsFrom(v: Json, k: nat): seq<Token>
    requires v.Object? && k <= |v.fields|
    decreases v, 0, |v.fields| - k
  {
    if k == |v.fields| then []
    else Separator(k) + [Literal(Text(v.fields[k].name)), Colon] + Plain(v.fields[k].value) + FieldsFrom(v, k + 1)
  }

  /** Appends the canonical form of a value to what was written before. */
  method WriteCanonical(value: Json, before: seq<Token>) returns (out: seq<Token>)
    ensures out == before + Plain(Sorted(value))
    decreases value, 1
  {
    match value
    case Object(_) => out := WriteObject(value, before);
    case Array(_) => out := WriteArray(value, before);
    case Scalar(scalar) => out := before + [Literal(scalar)];
  }

  method WriteObject(value: Json, before: seq<Token>) returns (out: seq<Token>)
    requires value.Object?
    ensures out == before + Plain(Sorted(value))
    decreases value, 0
  {
    ghost var sorted := Sorted(value);
    var fields := Sort(value.fields);
    out := before + [OpenObject];
    for i := 0 to |fields|
      invariant out + FieldsFrom(sorted, i) == before + [OpenObject] + FieldsFrom(sorted, 0)
    {
      ghost var was := out;
      assert fields[i] in value.fields;
      if i > 0 {
        out := out + [Comma];
      }
      out := out + [Literal(Text(fields[i].name)), Colon];
      out := WriteCanonical(fields[i].value, out);
      assert sorted.fields[i] == Field(fields[i].name, Sorted(fields[i].value));
      FieldWritten(sorted, i, was, out);
    }
    out := out + [CloseObject];
    Closed(before, OpenObject, FieldsFrom(sorted, 0), CloseObject);
  }

  method WriteArray(value: Json, before: seq<Token>) returns (out: seq<Token>)
    requires value.Array?
    ensures out == before + Plain(Sorted(value))
    decreases value, 0
  {
    ghost var sorted := Sorted(value);
    out := before + [OpenArray];
    for i := 0 to |value.items|
      invariant out + ItemsFrom(sorted, i) == before + [OpenArray] + ItemsFrom(sorted, 0)
    {
      ghost var was := out;
      if i > 0 {
        out := out + [Comma];
      }
      out := WriteCanonical(value.items[i], out);
      assert sorted.items[i] == Sorted(value.items[i]);
      ItemWritten(sorted, i, was, out);
    }
    out := out + [CloseArray];
    Closed(before, OpenArray, ItemsFrom(sorted, 0), CloseArray);
  }

  /** One more field written is one less to write. */
  lemma FieldWritten(v: Json, k: nat, was: seq<Token>, out: seq<Token>)
    requires v.Object? && k < |v.fields|
    requires out == was + Separator(k) + [Literal(Text(v.fields[k].name)), Colon] + Plain(v.fields[k].value)
    ensures out + FieldsFrom(v, k + 1) == was + FieldsFrom(v, k)
  {
    var head, body := [Literal(Text(v.fields[k].name)), Colon], Plain(v.fields[k].value);
    Shift(was, Separator(k), head);
    Shift(was, Separator(k) + head, body);
    Shift(was, Separator(k) + head + body, FieldsFrom(v, k + 1));
  }

  lemma ItemWritten(v: Json, k: nat, was: seq<Token>, out: seq<Token>)
    requires v.Array? && k < |v.items|
    requires out == was + Separator(k) + Plain(v.items[k])
    ensures out + ItemsFrom(v, k + 1) == was + ItemsFrom(v, k)
  {
    Shift(was, Separator(k), Plain(v.items[k]));
    Shift(was, Separator(k) + Plain(v.items[k]), ItemsFrom(v, k + 1));
  }

  lemma Shift(a: seq<Token>, b: seq<Token>, c: seq<Token>)
    ensures a + b + c == a + (b + c)
  {
  }

  lemma Closed(before: seq<Token>, open: Token, inner: seq<Token>, close: Token)
    ensures before + [open] + inner + [close] == before + ([open] + inner + [close])
  {
  }

  // ---- Parsing ----

  /** The value at the front of the tokens, and the tokens after it. */
  function Parse(ts: seq<Token>): (r: Option<(Json, seq<Token>)>)
    ensures r.Some? ==> |r.value.1| < |ts|
    decreases |ts|, 0
  {
    if ts == [] then None
    else match ts[0]
      case Literal(s) => Some((Scalar(s), ts[1..]))
      case OpenArray => ParseItems(ts[1..], [])
      case OpenObject => ParseFields(ts[1..], [])
      case _ => None
  }

  /** The rest of an array of which `done` was read. */
  function ParseItems(ts: seq<Token>, done: seq<Json>): (r: Option<(Json, seq<Token>)>)
    ensures r.Some? ==> |r.value.1| < |ts|
    decreases |ts|, 1
  {
    if ts == [] then None
    else if ts[0] == CloseArray then Some((Array(done), ts[1..]))
    else if done != [] && ts[0] != Comma then None
    else
      var item := Parse(if done == [] then ts else ts[1..]);
      if item.None? then None else ParseItems(item.value.1, done + [item.value.0])
  }

  function ParseFields(ts: seq<Token>, done: seq<Field>): (r: Option<(Json, seq<Token>)>)
    ensures r.Some? ==> |r.value.1| < |ts|
    decreases |ts|, 1
  {
    if ts == [] then None
    else if ts[0] == CloseObject then Some((Object(done), ts[1..]))
    else if done != [] && ts[0] != Comma then None
    else
      var field := if done == [] then ts else ts[1..];
      if |field| < 2 || !field[0].Literal? || !field[0].scalar.Text? || field[1] != Colon then None
      else
        var value := Parse(field[2..]);
        if value.None? then None
        else ParseFields(value.value.1, done + [Field(field[0].scalar.text, value.value.0)])
  }

  /** Parsing what was printed gives the value back, whatever follows it. */
  lemma {:induction false} ParsePlain(v: Json, rest: seq<Token>)
    ensures Parse(Plain(v) + rest) == Some((v, rest))
    decreases v, 1, 0
  {
    var ts := Plain(v) + rest;
    match v
    case Scalar(s) => assert ts[1..] == rest;
    case Array(items) =>
      assert ts[1..] == ItemsFrom(v, 0) + [CloseArray] + rest;
      ParseItemsPlain(v, 0, rest);
    case Object(fields) =>
      assert ts[1..] == FieldsFrom(v, 0) + [CloseObject] + rest;
      ParseFieldsPlain(v, 0, rest);
  }

  /** A value starts with a literal or an opening bracket. */
  lemma PlainStarts(v: Json)
    ensures Plain(v) != [] && Plain(v)[0] != CloseArray && Plain(v)[0] != CloseObject && Plain(v)[0] != Comma
  {
  }

  lemma PrefixPush<T>(s: seq<T>, k: nat)
    requires k < |s|
    ensures s[..k] + [s[k]] == s[..k + 1]
  {
  }

  lemma {:induction false} ParseItemsPlain(v: Json, k: nat, rest: seq<Token>)
    requires v.Array? && k <= |v.items|
    ensures ParseItems(ItemsFrom(v, k) + [CloseArray] + rest, v.items[..k]) == Some((v, rest))
    decreases v, 0, |v.items| - k
  {
    var ts := ItemsFrom(v, k) + [CloseArray] + rest;
    if k == |v.items| {
      assert ts[1..] == rest && v.items[..k] == v.items;
    } else {
      var after := ItemsFrom(v, k + 1) + [CloseArray] + rest;
      var item := Plain(v.items[k]);
      PlainStarts(v.items[k]);
      Regroup(Separator(k), item, ItemsFrom(v, k + 1), [CloseArray], rest);
      Skip(Separator(k), item + after);
      ParsePlain(v.items[k], after);
      ParseItemsPlain(v, k + 1, rest);
      PrefixPush(v.items, k);
    }
  }

  lemma FieldAhead(v: Json, k: nat, rest: seq<Token>)
    requires v.Object? && k < |v.fields|
    ensures var ts := FieldsFrom(v, k) + [CloseObject] + rest;
            var field := if k == 0 then ts else ts[1..];
            && |ts| >= 2 && |field| >= 2 && ts[0] != CloseObject && (k > 0 ==> ts[0] == Comma)
            && field[0] == Literal(Text(v.fields[k].name)) && field[1] == Colon
            && field[2..] == Plain(v.fields[k].value) + (FieldsFrom(v, k + 1) + [CloseObject] + rest)
  {
    var ts := FieldsFrom(v, k) + [CloseObject] + rest;
    var head, value := [Literal(Text(v.fields[k].name)), Colon], Plain(v.fields[k].value);
    Regroup(Separator(k) + head, value, FieldsFrom(v, k + 1), [CloseObject], rest);
    var body := value + (FieldsFrom(v, k + 1) + [CloseObject] + rest);
    Shift(Separator(k), head, body);
    Skip(Separator(k), head + body);
    Skip(head, body);
  }

  lemma Regroup(a: seq<Token>, b: seq<Token>, c: seq<Token>, d: seq<Token>, e: seq<Token>)
    ensures a + b + c + d + e == a + (b + (c + d + e))
  {
    Shift(a + b, c, d);
    Shift(a + b, c + d, e);
    Shift(a, b, c + d + e);
  }

  lemma Skip(a: seq<Token>, b: seq<Token>)
    ensures (a + b)[|a|..] == b
  {
  }

  lemma {:induction false} ParseFieldsPlain(v: Json, k: nat, rest: seq<Token>)
    requires v.Object? && k <= |v.fields|
    ensures ParseFields(FieldsFrom(v, k) + [CloseObject] + rest, v.fields[..k]) == Some((v, rest))
    decreases v, 0, |v.fields| - k
  {
    var ts := FieldsFrom(v, k) + [CloseObject] + rest;
    if k == |v.fields| {
      assert ts[1..] == rest && v.fields[..k] == v.fields;
    } else {
      var after := FieldsFrom(v, k + 1) + [CloseObject] + rest;
      FieldAhead(v, k, rest);
      ParsePlain(v.fields[k].value, after);
      ParseFieldsPlain(v, k + 1, rest);
      PrefixPush(v.fields, k);
    }
  }

  // ---- What the canonical form promises ----

  /** The tokens `WriteCanonical` writes on an empty buffer. */
  ghost function Canonical(v: Json): seq<Token> {
    Plain(Sorted(v))
  }

  /** Parsing the canonical form gives the value with its fields sorted at every depth. */
  lemma CanonicalRoundTrip(v: Json)
    requires WellFormed(v)
    ensures Parse(Canonical(v)) == Some((Sorted(v), []))
    ensures InOrder(Sorted(v)) && Same(v, Sorted(v))
  {
    ParsePlain(Sorted(v), []);
    assert Plain(Sorted(v)) + [] == Plain(Sorted(v));
    SortedIsSame(v);
  }

  /** Two values print alike exactly when they are equal up to the order of fields. */
  lemma PrintsAlikeIffSame(v: Json, w: Json)
    requires WellFormed(v) && WellFormed(w)
    ensures Canonical(v) == Canonical(w) <==> Same(v, w)
  {
    CanonicalRoundTrip(v);
    CanonicalRoundTrip(w);
    SortedDecidesSame(v, w);
  }

  /** Decoding the canonical form and encoding it again changes nothing. */
  lemma ReencodingIsIdempotent(v: Json)
    requires WellFormed(v)
    ensures Parse(Canonical(v)).Some? && Canonical(Parse(Canonical(v)).value.0) == Canonical(v)
  {
    CanonicalRoundTrip(v);
    SortedKeepsForm(v);
    SortedDecidesSame(v, Sorted(v));
  }

  lemma {:induction false} SortedKeepsForm(v: Json)
    requires WellFormed(v)
    ensures WellFormed(Sorted(v))
  {
    SortedIsSame(v);
    InOrderIsWellFormed(Sorted(v));
  }

  lemma {:induction false} InOrderIsWellFormed(v: Json)
    requires InOrder(v)
    ensures WellFormed(v)
    decreases v
  {
    match v
    case Scalar(_) =>
    case Array(items) =>
      forall i | 0 <= i < |items| ensures WellFormed(items[i]) {
        InOrderIsWellFormed(items[i]);
      }
    case Object(fields) =>
      AscendingIsDistinct(fields);
      forall i | 0 <= i < |fields| ensures WellFormed(fields[i].value) {
        InOrderIsWellFormed(fields[i].value);
      }
  }

  /** The object {"b": [true, {}], "a": null}, written out. */
  lemma CanonicalExample()
    ensures Canonical(Object([Field("b", Array([Scalar(Bool(true)), Object([])])), Field("a", Scalar(Null))])) ==
            [OpenObject, Literal(Text("a")), Colon, Literal(Null), Comma,
             Literal(Text("b")), Colon, OpenArray, Literal(Bool(true)), Comma, OpenObject, CloseObject, CloseArray,
             CloseObject]
  {
    var inner := Array([Scalar(Bool(true)), Object([])]);
    var a, b := Field("a", Scalar(Null)), Field("b", inner);
    assert Less("a", "b") && !Less("b", "a");
    assert Sort([a]) == [a];
    assert Sort([b, a]) == Insert(b, [a]);
    assert [a][1..] == [];
    assert Sort([b, a]) == [a, b];
    assert Sorted(Object([])) == Object([]);
    assert Sorted(inner) == inner;
    assert Sorted(Object([b, a])) == Object([a, b]);
    assert Plain(Object([])) == [OpenObject, CloseObject];
    assert ItemsFrom(inner, 2) == [];
    assert ItemsFrom(inner, 1) == [Comma, OpenObject, CloseObject];
    assert Plain(inner) == [OpenArray, Literal(Bool(true)), Comma, OpenObject, CloseObject, CloseArray];
    var whole := Object([a, b]);
    assert FieldsFrom(whole, 2) == [];
    assert FieldsFrom(whole, 1) == [Comma, Literal(Text("b")), Colon] + Plain(inner);
  }
}
