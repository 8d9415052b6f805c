/**
 The serialisation that orders canonical values: json.dumps with sorted keys and raw non-ASCII text.
 Different values never have the same text, so the order is total on them.
 */
module JsonText {
  import opened Basics
  import opened Sorting
  import opened CanonicalSchema

  // ---------- text ----------

  function HexDigit(d: nat): char
    requires d < 16
  {
    "0123456789abcdef"[d]
  }

  function Escape(c: char): string {
    if c == '\"' then ['\\', '\"']
    else if c == '\\' then ['\\', '\\']
    else if c == '\n' then ['\\', 'n']
    else if c == '\r' then ['\\', 'r']
    else if c == '\t' then ['\\', 't']
    else if c as int == 8 then ['\\', 'b']
    else if c as int == 12 then ['\\', 'f']
    else if (c as int) < 32 then ['\\', 'u', '0', '0', HexDigit(c as int / 16), HexDigit(c as int % 16)]
    else [c]
  }

  function Escaped(s: string): string {
    if s == "" then "" else Escape(s[0]) + Escaped(s[1..])
  }

  /** A string literal, with its quotes. */
  function Quote(s: string): string {
    ['\"'] + Escaped(s) + ['\"']
  }

  // ---------- keys ----------

  lemma {:induction false} LeastKey(keys: set<string>) returns (k: string)
    requires keys != {}
    ensures k in keys && forall l :: l in keys ==> TextLeq(k, l)
  {
    var x :| x in keys;
    TextTotal(x, x);
    if keys == {x} {
      k := x;
    } else {
      assert keys - {x} != {};
      var y := LeastKey(keys - {x});
      TextTotal(x, y);
      k := if TextLeq(x, y) then x else y;
      forall l | l in keys ensures TextLeq(k, l) {
        if l != x && k == x { TextTransitive(x, y, l); }
      }
    }
  }

  lemma ElementsCons(k: string, rest: seq<string>)
    ensures Elements([k] + rest) == {k} + Elements(rest)
  {
  }

  ghost function SortedKeys(keys: set<string>): (s: seq<string>)
    ensures Elements(s) == keys
  {
    if keys == {} then [] else
      LeastKeyExists(keys);
      var k :| k in keys && forall l :: l in keys ==> TextLeq(k, l);
      var rest := SortedKeys(keys - {k});
      ElementsCons(k, rest);
      [k] + rest
  }

  lemma LeastKeyExists(keys: set<string>)
    requires keys != {}
    ensures exists k :: k in keys && forall l :: l in keys ==> TextLeq(k, l)
  {
    var k := LeastKey(keys);
  }

  // ---------- values ----------

  ghost function Dumps(value: Json): string
    decreases value, 2
  {
    match value
    case Null => "null"
    case Bool(b) => if b then "true" else "false"
    case Number(literal) => literal
    case Text(s) => Quote(s)
    case List(items) => if items == [] then "[]" else "[" + Dumps(items[0]) + MoreItems(value, 1)
    case Object(fields) =>
      var keys := SortedKeys(fields.Keys);
      if keys == [] then "{}" else "{" + Field(value, 0) + MoreFields(value, 1)
  }

  ghost function MoreItems(value: Json, i: nat): string
    requires value.List? && i <= |value.items|
    decreases value, 1, |value.items| - i
  {
    if i == |value.items| then "]" else ", " + Dumps(value.items[i]) + MoreItems(value, i + 1)
  }

  ghost function Field(value: Json, i: nat): string
    requires value.Object? && i < |SortedKeys(value.fields.Keys)|
    decreases value, 0
  {
    var k := SortedKeys(value.fields.Keys)[i];
    assert k in Elements(SortedKeys(value.fields.Keys));
    Quote(k) + ": " + Dumps(value.fields[k])
  }

  ghost function MoreFields(value: Json, i: nat): string
    requires value.Object? && i <= |SortedKeys(value.fields.Keys)|
    decreases value, 1, |SortedKeys(value.fields.Keys)| - i
  {
    if i == |SortedKeys(value.fields.Keys)| then "}" else ", " + Field(value, i) + MoreFields(value, i + 1)
  }

  // ---------- reading text back ----------

  lemma Cancel(a: string, x: string, y: string)
    requires a + x == a + y
    ensures x == y
  {
    assert x == (a + x)[|a|..] && y == (a + y)[|a|..];
  }

  /** Escapes cannot be confused with each other or with the closing quote. */
  lemma EscapeUnique(c: char, d: char, x: string, y: string)
    requires Escape(c) + x == Escape(d) + y
    ensures c == d && x == y
  {
    hide HexDigit;
    assert (Escape(c) + x)[0] == Escape(c)[0] && (Escape(d) + y)[0] == Escape(d)[0];
    if |Escape(c)| > 1 {
      assert (Escape(c) + x)[1] == Escape(c)[1];
      assert |Escape(d)| > 1;
      assert (Escape(d) + y)[1] == Escape(d)[1];
    }
    if |Escape(c)| > 2 {
      assert (Escape(c) + x)[4] == Escape(c)[4] && (Escape(d) + y)[4] == Escape(d)[4];
      assert (Escape(c) + x)[5] == Escape(c)[5] && (Escape(d) + y)[5] == Escape(d)[5];
      HexUnique(c as int / 16, d as int / 16);
      HexUnique(c as int % 16, d as int % 16);
      assert c as int == d as int;
    }
    assert c == d;
    Cancel(Escape(c), x, y);
  }

  lemma HexUnique(a: nat, b: nat)
    requires a < 16 && b < 16
    ensures HexDigit(a) == HexDigit(b) ==> a == b
  {
  }

  lemma Regroup(a: string, b: string, c: string, x: string)
    ensures (a + b + c) + x == a + (b + (c + x))
  {
  }

  lemma EscapeNeverCloses(c: char)
    ensures Escape(c) != "" && Escape(c)[0] != '\"'
  {
  }

  lemma EscapedStep(s: string, w: string)
    ensures s == "" ==> Escaped(s) + w == w
    ensures s != "" ==> Escaped(s) + w == Escape(s[0]) + (Escaped(s[1..]) + w)
    ensures s != "" ==> Escaped(s) + w != "" && (Escaped(s) + w)[0] != '\"'
  {
    hide Escape;
    if s != "" {
      EscapeNeverCloses(s[0]);
      assert Escaped(s) + w == Escape(s[0]) + (Escaped(s[1..]) + w);
      assert (Escape(s[0]) + (Escaped(s[1..]) + w))[0] == Escape(s[0])[0];
    }
  }

  lemma {:induction false} EscapedUnique(s: string, t: string, x: string, y: string)
    requires Escaped(s) + (['\"'] + x) == Escaped(t) + (['\"'] + y)
    ensures s == t && x == y
  {
    hide Escape, Escaped;
    EscapedStep(s, ['\"'] + x);
    EscapedStep(t, ['\"'] + y);
    if s == "" || t == "" {
      Cancel(['\"'], x, y);
    } else {
      var u, v := Escaped(s[1..]) + (['\"'] + x), Escaped(t[1..]) + (['\"'] + y);
      EscapeUnique(s[0], t[0], u, v);
      EscapedUnique(s[1..], t[1..], x, y);
      assert s == [s[0]] + s[1..] && t == [t[0]] + t[1..];
    }
  }

  lemma QuoteUnique(s: string, t: string, x: string, y: string)
    requires Quote(s) + x == Quote(t) + y
    ensures s == t && x == y
  {
    hide Escaped;
    Regroup(['\"'], Escaped(s), ['\"'], x);
    Regroup(['\"'], Escaped(t), ['\"'], y);
    Cancel(['\"'], Escaped(s) + (['\"'] + x), Escaped(t) + (['\"'] + y));
    EscapedUnique(s, t, x, y);
  }

  /** What may follow a value. */
  predicate Ends(x: string) {
    x == "" || x[0] == ',' || x[0] == ']' || x[0] == '}'
  }

  lemma NumeralEnds(t: Numeral, x: string)
    requires Ends(x)
    ensures forall i :: 0 <= i < |t| ==> (t + x)[i] in NUMERAL_CHARS
    ensures x != "" ==> (t + x)[|t|] !in NUMERAL_CHARS
  {
  }

  lemma NumeralNotLonger(t: Numeral, u: Numeral, x: string, y: string)
    requires t + x == u + y && Ends(x) && Ends(y)
    ensures |t| >= |u|
  {
    NumeralEnds(t, x);
    NumeralEnds(u, y);
  }

  lemma NumeralUnique(t: Numeral, u: Numeral, x: string, y: string)
    requires t + x == u + y && Ends(x) && Ends(y)
    ensures t == u && x == y
  {
    NumeralNotLonger(t, u, x, y);
    NumeralNotLonger(u, t, y, x);
    assert t == (t + x)[..|t|] && u == (u + y)[..|u|];
    Cancel(t, x, y);
  }

  /** The first character tells what kind of value follows. */
  predicate Opens(value: Json, c: char) {
    match value
    case Null => c == 'n'
    case Bool(b) => c == if b then 't' else 'f'
    case Number(_) => c in NUMERAL_CHARS
    case Text(_) => c == '\"'
    case List(_) => c == '['
    case Object(_) => c == '{'
  }

  lemma DumpsOpens(value: Json)
    ensures Dumps(value) != "" && Opens(value, Dumps(value)[0])
  {
    hide Escaped, Field, MoreFields, MoreItems;
  }

  lemma OpensSameKind(a: Json, b: Json, c: char)
    requires Opens(a, c) && Opens(b, c)
    ensures (a.Null? <==> b.Null?) && (a.Bool? <==> b.Bool?) && (a.Number? <==> b.Number?)
    ensures (a.Text? <==> b.Text?) && (a.List? <==> b.List?) && (a.Object? <==> b.Object?)
    ensures a.Bool? ==> a == b
    ensures c != ']' && c != '}'
  {
  }

  lemma SameKind(a: Json, b: Json, x: string, y: string)
    requires Dumps(a) + x == Dumps(b) + y
    ensures (a.Null? <==> b.Null?) && (a.Bool? <==> b.Bool?) && (a.Number? <==> b.Number?)
    ensures (a.Text? <==> b.Text?) && (a.List? <==> b.List?) && (a.Object? <==> b.Object?)
    ensures a.Bool? ==> a == b
  {
    hide Dumps, Opens;
    DumpsOpens(a);
    DumpsOpens(b);
    assert (Dumps(a) + x)[0] == Dumps(a)[0] && (Dumps(b) + y)[0] == Dumps(b)[0];
    OpensSameKind(a, b, Dumps(a)[0]);
  }

  // ---------- values are determined by their text ----------

  lemma MoreItemsEnds(a: Json, i: nat, x: string)
    requires a.List? && i <= |a.items|
    ensures Ends(MoreItems(a, i) + x)
    ensures i < |a.items| ==> MoreItems(a, i) + x == ", " + (Dumps(a.items[i]) + (MoreItems(a, i + 1) + x))
    ensures i == |a.items| ==> MoreItems(a, i) + x == "]" + x
  {
    hide Dumps;
    if i < |a.items| {
      Regroup(", ", Dumps(a.items[i]), MoreItems(a, i + 1), x);
      assert (MoreItems(a, i) + x)[0] == ',';
    }
  }

  lemma MoreFieldsEnds(a: Json, i: nat, x: string)
    requires a.Object? && i <= |SortedKeys(a.fields.Keys)|
    ensures Ends(MoreFields(a, i) + x)
    ensures i < |SortedKeys(a.fields.Keys)| ==>
      MoreFields(a, i) + x == ", " + (Field(a, i) + (MoreFields(a, i + 1) + x))
    ensures i == |SortedKeys(a.fields.Keys)| ==> MoreFields(a, i) + x == "}" + x
  {
    hide Field, SortedKeys;
    if i < |SortedKeys(a.fields.Keys)| {
      Regroup(", ", Field(a, i), MoreFields(a, i + 1), x);
      assert (MoreFields(a, i) + x)[0] == ',';
    }
  }

  /** Text followed by a separator or the end determines the value. */
  lemma {:induction false} ValueUnique(a: Json, b: Json, x: string, y: string)
    requires Dumps(a) + x == Dumps(b) + y && Ends(x) && Ends(y)
    ensures a == b && x == y
    decreases a, 2
  {
    SameKind(a, b, x, y);
    match a
    case Null => Cancel("null", x, y);
    case Bool(v) => Cancel(Dumps(a), x, y);
    case Number(literal) => NumeralUnique(literal, b.literal, x, y);
    case Text(s) => QuoteUnique(s, b.s, x, y);
    case List(_) => ListUnique(a, b, x, y);
    case Object(_) => ObjectUnique(a, b, x, y);
  }

  lemma ListOpening(a: Json, x: string)
    requires a.List?
    ensures a.items == [] ==> Dumps(a) + x == "[" + ("]" + x)
    ensures a.items != [] ==> Dumps(a) + x == "[" + (Dumps(a.items[0]) + (MoreItems(a, 1) + x))
    ensures a.items != [] ==> (Dumps(a) + x)[1] != ']'
  {
    if a.items != [] {
      var first := a.items[0];
      assert Dumps(a) == "[" + Dumps(first) + MoreItems(a, 1);
      hide Dumps, MoreItems;
      Regroup("[", Dumps(first), MoreItems(a, 1), x);
      DumpsOpens(first);
      OpensSameKind(first, first, Dumps(first)[0]);
      assert (Dumps(a) + x)[1] == Dumps(first)[0];
    }
  }

  lemma {:induction false} ListUnique(a: Json, b: Json, x: string, y: string)
    requires a.List? && b.List? && Dumps(a) + x == Dumps(b) + y
    ensures a == b && x == y
    decreases a, 1, |a.items| + 1
  {
    hide Dumps, MoreItems;
    ListOpening(a, x);
    ListOpening(b, y);
    if a.items == [] || b.items == [] {
      assert a.items == [] ==> (Dumps(a) + x)[1] == ']';
      assert b.items == [] ==> (Dumps(b) + y)[1] == ']';
      assert a.items == b.items == [];
      Cancel("[", "]" + x, "]" + y);
      Cancel("]", x, y);
    } else {
      Cancel("[", Dumps(a.items[0]) + (MoreItems(a, 1) + x), Dumps(b.items[0]) + (MoreItems(b, 1) + y));
      MoreItemsEnds(a, 1, x);
      MoreItemsEnds(b, 1, y);
      ValueUnique(a.items[0], b.items[0], MoreItems(a, 1) + x, MoreItems(b, 1) + y);
      MoreItemsUnique(a, 1, b, 1, x, y);
      assert a.items == [a.items[0]] + a.items[1..] && b.items == [b.items[0]] + b.items[1..];
    }
  }

  lemma {:induction false} MoreItemsUnique(a: Json, i: nat, b: Json, j: nat, x: string, y: string)
    requires a.List? && b.List? && i <= |a.items| && j <= |b.items|
    requires MoreItems(a, i) + x == MoreItems(b, j) + y
    ensures a.items[i..] == b.items[j..] && x == y
    decreases a, 1, |a.items| - i
  {
    hide Dumps, MoreItems;
    MoreItemsEnds(a, i, x);
    MoreItemsEnds(b, j, y);
    if i == |a.items| || j == |b.items| {
      assert (MoreItems(a, i) + x)[0] == if i == |a.items| then ']' else ',';
      assert (MoreItems(b, j) + y)[0] == if j == |b.items| then ']' else ',';
      Cancel("]", x, y);
    } else {
      var u, v := MoreItems(a, i + 1) + x, MoreItems(b, j + 1) + y;
      Cancel(", ", Dumps(a.items[i]) + u, Dumps(b.items[j]) + v);
      MoreItemsEnds(a, i + 1, x);
      MoreItemsEnds(b, j + 1, y);
      ValueUnique(a.items[i], b.items[j], u, v);
      MoreItemsUnique(a, i + 1, b, j + 1, x, y);
      assert a.items[i..] == [a.items[i]] + a.items[i + 1..] && b.items[j..] == [b.items[j]] + b.items[j + 1..];
    }
  }

  function Keys(a: Json): set<string>
    requires a.Object?
  {
    a.fields.Keys
  }

  lemma KeyAt(a: Json, i: nat)
    requires a.Object? && i < |SortedKeys(Keys(a))|
    ensures SortedKeys(Keys(a))[i] in a.fields
  {
    assert SortedKeys(Keys(a))[i] in Elements(SortedKeys(Keys(a)));
  }

  lemma FieldOpening(a: Json, i: nat, x: string)
    requires a.Object? && i < |SortedKeys(Keys(a))|
    ensures SortedKeys(Keys(a))[i] in a.fields
    ensures Field(a, i) + x == Quote(SortedKeys(Keys(a))[i]) + (": " + (Dumps(a.fields[SortedKeys(Keys(a))[i]]) + x))
    ensures (Field(a, i) + x)[0] == '\"'
  {
    hide Dumps, SortedKeys, Escaped;
    KeyAt(a, i);
    var k := SortedKeys(Keys(a))[i];
    Regroup(Quote(k), ": ", Dumps(a.fields[k]), x);
  }

  lemma {:induction false} FieldUnique(a: Json, i: nat, b: Json, j: nat, x: string, y: string)
    requires a.Object? && b.Object? && i < |SortedKeys(Keys(a))| && j < |SortedKeys(Keys(b))|
    requires Field(a, i) + x == Field(b, j) + y && Ends(x) && Ends(y)
    ensures SortedKeys(Keys(a))[i] in a.fields && SortedKeys(Keys(b))[j] in b.fields
    ensures SortedKeys(Keys(a))[i] == SortedKeys(Keys(b))[j] && x == y
    ensures a.fields[SortedKeys(Keys(a))[i]] == b.fields[SortedKeys(Keys(b))[j]]
    decreases a, 0
  {
    hide Dumps, SortedKeys, Quote, Field;
    FieldOpening(a, i, x);
    FieldOpening(b, j, y);
    var k, l := SortedKeys(Keys(a))[i], SortedKeys(Keys(b))[j];
    var u, v := Dumps(a.fields[k]) + x, Dumps(b.fields[l]) + y;
    QuoteUnique(k, l, ": " + u, ": " + v);
    Cancel(": ", u, v);
    ValueUnique(a.fields[k], b.fields[l], x, y);
  }

  /** The same keys from here on, with the same values. */
  ghost predicate SameFieldsFrom(a: Json, i: nat, b: Json, j: nat)
    requires a.Object? && b.Object?
  {
    && i <= |SortedKeys(Keys(a))| && j <= |SortedKeys(Keys(b))|
    && SortedKeys(Keys(a))[i..] == SortedKeys(Keys(b))[j..]
    && forall k :: k in SortedKeys(Keys(a))[i..] ==> k in a.fields && k in b.fields && a.fields[k] == b.fields[k]
  }

  lemma SameFieldsOneMore(a: Json, i: nat, b: Json, j: nat)
    requires a.Object? && b.Object? && i < |SortedKeys(Keys(a))| && j < |SortedKeys(Keys(b))|
    requires SameFieldsFrom(a, i + 1, b, j + 1)
    requires SortedKeys(Keys(a))[i] == SortedKeys(Keys(b))[j] && SortedKeys(Keys(a))[i] in a.fields &&
      SortedKeys(Keys(b))[j] in b.fields
    requires a.fields[SortedKeys(Keys(a))[i]] == b.fields[SortedKeys(Keys(b))[j]]
    ensures SameFieldsFrom(a, i, b, j)
  {
    hide SortedKeys;
    var k, l := SortedKeys(Keys(a)), SortedKeys(Keys(b));
    assert k[i..] == [k[i]] + k[i + 1..] && l[j..] == [l[j]] + l[j + 1..];
  }

  lemma {:induction false} MoreFieldsUnique(a: Json, i: nat, b: Json, j: nat, x: string, y: string)
    requires a.Object? && b.Object? && i <= |SortedKeys(Keys(a))| && j <= |SortedKeys(Keys(b))|
    requires MoreFields(a, i) + x == MoreFields(b, j) + y
    ensures SameFieldsFrom(a, i, b, j) && x == y
    decreases a, 1, |SortedKeys(Keys(a))| - i
  {
    hide Dumps, MoreFields, Field, SortedKeys;
    MoreFieldsEnds(a, i, x);
    MoreFieldsEnds(b, j, y);
    var m, n := |SortedKeys(Keys(a))|, |SortedKeys(Keys(b))|;
    if i == m || j == n {
      assert (MoreFields(a, i) + x)[0] == if i == m then '}' else ',';
      assert (MoreFields(b, j) + y)[0] == if j == n then '}' else ',';
      Cancel("}", x, y);
    } else {
      hide SameFieldsFrom;
      var u, v := MoreFields(a, i + 1) + x, MoreFields(b, j + 1) + y;
      Cancel(", ", Field(a, i) + u, Field(b, j) + v);
      MoreFieldsEnds(a, i + 1, x);
      MoreFieldsEnds(b, j + 1, y);
      FieldUnique(a, i, b, j, u, v);
      MoreFieldsUnique(a, i + 1, b, j + 1, x, y);
      SameFieldsOneMore(a, i, b, j);
    }
  }

  lemma ObjectOpening(a: Json, x: string)
    requires a.Object?
    ensures SortedKeys(Keys(a)) == [] ==> Dumps(a) + x == "{" + ("}" + x)
    ensures SortedKeys(Keys(a)) != [] ==> Dumps(a) + x == "{" + (Field(a, 0) + (MoreFields(a, 1) + x))
    ensures SortedKeys(Keys(a)) != [] ==> (Dumps(a) + x)[1] != '}'
  {
    hide SortedKeys, Field, MoreFields;
    if SortedKeys(Keys(a)) != [] {
      FieldOpening(a, 0, "");
      assert Field(a, 0) + "" == Field(a, 0);
      Regroup("{", Field(a, 0), MoreFields(a, 1), x);
      assert (Dumps(a) + x)[1] == Field(a, 0)[0];
    }
  }

  lemma SameFieldsSameObject(a: Json, b: Json)
    requires a.Object? && b.Object? && SameFieldsFrom(a, 0, b, 0)
    ensures a == b
  {
    hide SortedKeys;
    var k, l := SortedKeys(Keys(a)), SortedKeys(Keys(b));
    assert k[0..] == k && l[0..] == l;
    assert Elements(k) == Keys(a) && Elements(l) == Keys(b);
    assert forall key :: key in a.fields ==> key in k by {
      assert forall key :: key in a.fields ==> key in Elements(k);
    }
    assert a.fields == b.fields;
  }

  lemma {:induction false} ObjectUnique(a: Json, b: Json, x: string, y: string)
    requires a.Object? && b.Object? && Dumps(a) + x == Dumps(b) + y
    ensures a == b && x == y
    decreases a, 1, |SortedKeys(Keys(a))| + 1
  {
    hide Dumps, MoreFields, Field, SortedKeys, SameFieldsFrom;
    ObjectOpening(a, x);
    ObjectOpening(b, y);
    var k, l := SortedKeys(Keys(a)), SortedKeys(Keys(b));
    if k == [] || l == [] {
      assert k == [] ==> (Dumps(a) + x)[1] == '}';
      assert l == [] ==> (Dumps(b) + y)[1] == '}';
      Cancel("{", "}" + x, "}" + y);
      Cancel("}", x, y);
      NoFields(a, b);
    } else {
      Cancel("{", Field(a, 0) + (MoreFields(a, 1) + x), Field(b, 0) + (MoreFields(b, 1) + y));
      MoreFieldsEnds(a, 1, x);
      MoreFieldsEnds(b, 1, y);
      FieldUnique(a, 0, b, 0, MoreFields(a, 1) + x, MoreFields(b, 1) + y);
      MoreFieldsUnique(a, 1, b, 1, x, y);
      SameFieldsOneMore(a, 0, b, 0);
    }
    SameFieldsSameObject(a, b);
  }

  lemma NoFields(a: Json, b: Json)
    requires a.Object? && b.Object? && SortedKeys(Keys(a)) == [] && SortedKeys(Keys(b)) == []
    ensures SameFieldsFrom(a, 0, b, 0)
  {
  }

  // ---------- the order is total ----------

  /** Different values have different text. */
  lemma DumpsInjective()
    ensures Injective(Dumps)
  {
    hide Dumps;
    forall a, b | Dumps(a) == Dumps(b) ensures a == b {
      assert Dumps(a) + "" == Dumps(a) && Dumps(b) + "" == Dumps(b);
      ValueUnique(a, b, "", "");
    }
  }

  /** So a change of structured data is reported exactly if more than a free order changed. */
  lemma StructuredDataChangedIff(previous: Snapshot, current: Snapshot, before: seq<Json>, after: seq<Json>)
    requires HasSchema(previous, before) && HasSchema(current, after)
    ensures CompareSchema(None, current, Dumps) == [NewUrl]
    ensures CompareSchema(Some(previous), current, Dumps) == [] <==> SameList(before, after)
    ensures Tells(CompareSchema(Some(previous), current, Dumps), before, after, ByText(Dumps))
  {
    hide Dumps, SameList, SortedBy, ByText;
    DumpsInjective();
    ChangeReportedIff(previous, current, before, after, Dumps);
  }
}
