/** Printing and parsing of JSON, as far as the model relies on them: what was printed parses back.
  * A prefix-free code for all JSON values shows that this can be asked for.
  */
module JsonTexts {
  import opened Collections
  import opened Json
  import opened Wrappers

  /** `json.dumps` and `json.loads`, the latter `None` where it raises. */
  datatype JsonText = JsonText(dumps: Json -> string, loads: string -> Option<Json>) {
    ghost predicate Valid() {
      && (forall j :: loads(dumps(j)) == Some(j))
      && loads("") == None
      && loads("{}") == Some(Obj(map[]))
    }
  }

  // ---------- a code that meets the law ----------

  function Unary(n: nat): string {
    if n == 0 then [';'] + "" else ['1'] + Unary(n - 1)
  }

  function CodeInt(i: int): string {
    if i < 0 then ['-'] + Unary(-i) else ['+'] + Unary(i)
  }

  function CodeText(s: string): string {
    if s == "" then [';'] + "" else ['.'] + ([s[0]] + CodeText(s[1..]))
  }

  function Tag(j: Json): char {
    match j
    case Null => 'n'
    case Bool(b) => if b then 't' else 'f'
    case Int(_) => 'i'
    case Float(_) => 'd'
    case Str(_) => 's'
    case Arr(_) => '['
    case Obj(_) => '{'
  }

  ghost function Code(j: Json): string
    decreases j, 2, 0
  {
    [Tag(j)] + Body(j)
  }

  ghost function Body(j: Json): string
    decreases j, 1, 0
  {
    match j
    case Null => ""
    case Bool(_) => ""
    case Int(i) => CodeInt(i)
    case Float(d) => CodeInt(d.mantissa) + CodeInt(d.exponent)
    case Str(s) => CodeText(s)
    case Arr(items) => CodeItems(items, j)
    case Obj(fields) => CodeFields(fields, j)
  }

  ghost predicate PartOf(items: seq<Json>, whole: Json) {
    forall i :: 0 <= i < |items| ==> items[i] < whole
  }

  ghost predicate FieldsOf(fields: map<string, Json>, whole: Json) {
    forall k :: k in fields ==> fields[k] < whole
  }

  ghost function CodeItems(items: seq<Json>, whole: Json): string
    requires PartOf(items, whole)
    decreases whole, 0, |items|
  {
    if items == [] then [']'] + "" else [','] + (Code(items[0]) + CodeItems(items[1..], whole))
  }

  /** The fields in some order: the key says which field was taken out. */
  ghost function CodeFields(fields: map<string, Json>, whole: Json): string
    requires FieldsOf(fields, whole)
    decreases whole, 0, |fields|
  {
    if fields == map[] then ['}'] + ""
    else
      var k :| k in fields;
      [','] + (CodeText(k) + (Code(fields[k]) + CodeFields(fields - {k}, whole)))
  }

  // ---------- no code is the beginning of another ----------

  /** Equal texts begin and go on equally. */
  lemma SameStart(h: char, s: string, x: string, g: char, t: string, y: string)
    requires ([h] + s) + x == ([g] + t) + y
    ensures h == g && s + x == t + y
  {
    var all, other := ([h] + s) + x, ([g] + t) + y;
    assert all[0] == h && other[0] == g;
    assert all[1..] == s + x && other[1..] == t + y;
  }

  lemma {:induction false} UnaryFree(n: nat, x: string, m: nat, y: string)
    requires Unary(n) + x == Unary(m) + y
    ensures n == m && x == y
  {
    SameStart(if n == 0 then ';' else '1', if n == 0 then "" else Unary(n - 1), x,
              if m == 0 then ';' else '1', if m == 0 then "" else Unary(m - 1), y);
    if n > 0 && m > 0 {
      UnaryFree(n - 1, x, m - 1, y);
    } else {
      assert "" + x == x && "" + y == y;
    }
  }

  lemma IntFree(i: int, x: string, j: int, y: string)
    requires CodeInt(i) + x == CodeInt(j) + y
    ensures i == j && x == y
  {
    var n, m := if i < 0 then -i else i, if j < 0 then -j else j;
    SameStart(if i < 0 then '-' else '+', Unary(n), x, if j < 0 then '-' else '+', Unary(m), y);
    UnaryFree(n, x, m, y);
  }

  lemma {:induction false} TextFree(s: string, x: string, t: string, y: string)
    requires CodeText(s) + x == CodeText(t) + y
    ensures s == t && x == y
  {
    var a, b := if s == "" then "" else [s[0]] + CodeText(s[1..]), if t == "" then "" else [t[0]] + CodeText(t[1..]);
    SameStart(if s == "" then ';' else '.', a, x, if t == "" then ';' else '.', b, y);
    if s != "" && t != "" {
      SameStart(s[0], CodeText(s[1..]), x, t[0], CodeText(t[1..]), y);
      TextFree(s[1..], x, t[1..], y);
      assert s == [s[0]] + s[1..] && t == [t[0]] + t[1..];
    } else {
      assert "" + x == x && "" + y == y;
    }
  }

  lemma {:induction false} CodeFree(a: Json, x: string, b: Json, y: string)
    requires Code(a) + x == Code(b) + y
    ensures a == b && x == y
    decreases a, 2, 0
  {
    SameStart(Tag(a), Body(a), x, Tag(b), Body(b), y);
    BodyFree(a, x, b, y);
  }

  lemma {:induction false} BodyFree(a: Json, x: string, b: Json, y: string)
    requires Tag(a) == Tag(b) && Body(a) + x == Body(b) + y
    ensures a == b && x == y
    decreases a, 1, 0
  {
    match a
    case Null => assert "" + x == x && "" + y == y;
    case Bool(_) => assert "" + x == x && "" + y == y;
    case Int(i) => IntFree(i, x, b.i, y);
    case Float(d) =>
      Associate(CodeInt(d.mantissa), CodeInt(d.exponent), x);
      Associate(CodeInt(b.d.mantissa), CodeInt(b.d.exponent), y);
      IntFree(d.mantissa, CodeInt(d.exponent) + x, b.d.mantissa, CodeInt(b.d.exponent) + y);
      IntFree(d.exponent, x, b.d.exponent, y);
    case Str(s) => TextFree(s, x, b.s, y);
    case Arr(items) => ItemsFree(items, a, x, b.items, b, y);
    case Obj(fields) => FieldsFree(fields, a, x, b.fields, b, y);
  }

  ghost function ItemsRest(items: seq<Json>, whole: Json): string
    requires PartOf(items, whole)
  {
    if items == [] then "" else Code(items[0]) + CodeItems(items[1..], whole)
  }

  lemma {:induction false} ItemsFree(items: seq<Json>, a: Json, x: string, others: seq<Json>, b: Json, y: string)
    requires PartOf(items, a) && PartOf(others, b)
    requires CodeItems(items, a) + x == CodeItems(others, b) + y
    ensures items == others && x == y
    decreases a, 0, |items|
  {
    SameStart(if items == [] then ']' else ',', ItemsRest(items, a), x,
              if others == [] then ']' else ',', ItemsRest(others, b), y);
    if items != [] && others != [] {
      Associate(Code(items[0]), CodeItems(items[1..], a), x);
      Associate(Code(others[0]), CodeItems(others[1..], b), y);
      CodeFree(items[0], CodeItems(items[1..], a) + x, others[0], CodeItems(others[1..], b) + y);
      ItemsFree(items[1..], a, x, others[1..], b, y);
      assert items == [items[0]] + items[1..] && others == [others[0]] + others[1..];
    } else {
      assert "" + x == x && "" + y == y;
    }
  }

  lemma NoFields(whole: Json)
    ensures CodeFields(map[], whole) == ['}'] + ""
  {
  }

  /** A field is taken out and coded first. */
  lemma FieldFirst(fields: map<string, Json>, whole: Json, x: string) returns (k: string, rest: string)
    requires FieldsOf(fields, whole) && fields != map[]
    ensures k in fields && rest == Code(fields[k]) + (CodeFields(fields - {k}, whole) + x)
    ensures CodeFields(fields, whole) + x == ([','] + CodeText(k)) + rest
  {
    hide Code, CodeText;
    k :| k in fields && CodeFields(fields, whole)
                        == [','] + (CodeText(k) + (Code(fields[k]) + CodeFields(fields - {k}, whole)));
    rest := Code(fields[k]) + (CodeFields(fields - {k}, whole) + x);
  }

  lemma {:induction false} FieldsFree(
    fields: map<string, Json>, a: Json, x: string, others: map<string, Json>, b: Json, y: string
  )
    requires FieldsOf(fields, a) && FieldsOf(others, b)
    requires CodeFields(fields, a) + x == CodeFields(others, b) + y
    ensures fields == others && x == y
    decreases a, 0, |fields|
  {
    NoFields(a);
    NoFields(b);
    hide Code, CodeText, CodeFields;
    if fields == map[] && others == map[] {
      SameStart('}', "", x, '}', "", y);
      assert "" + x == x && "" + y == y;
    } else if fields == map[] {
      var k, rest := FieldFirst(others, b, y);
      SameStart('}', "", x, ',', CodeText(k), rest);
    } else if others == map[] {
      var k, rest := FieldFirst(fields, a, x);
      SameStart(',', CodeText(k), rest, '}', "", y);
    } else {
      var k, rest := FieldFirst(fields, a, x);
      var l, more := FieldFirst(others, b, y);
      SameStart(',', CodeText(k), rest, ',', CodeText(l), more);
      TextFree(k, rest, l, more);
      CodeFree(fields[k], CodeFields(fields - {k}, a) + x, others[k], CodeFields(others - {k}, b) + y);
      FieldsFree(fields - {k}, a, x, others - {k}, b, y);
      assert fields == (fields - {k})[k := fields[k]] && others == (others - {k})[k := others[k]];
    }
  }

  ghost function Uncode(s: string): Option<Json> {
    if exists j :: Code(j) == s then
      var j :| Code(j) == s;
      Some(j)
    else None
  }

  /** The law can be met, for all JSON values at once. */
  lemma CanBeMet()
    ensures JsonText(Code, Uncode).Valid()
  {
    var json := JsonText(Code, Uncode);
    forall j
      ensures json.loads(json.dumps(j)) == Some(j)
    {
      var k := Uncode(Code(j)).value;
      assert Code(k) + "" == Code(j) + "";
      CodeFree(k, "", j, "");
    }
    assert Code(Obj(map[])) == "{}";
    assert json.loads("{}") == json.loads(json.dumps(Obj(map[])));
  }
}
