/** The text a registry signature covers: one text for each registry content, whatever the order of its keys. */
module Registry {
  import opened Wrappers
  import opened Sorting
  import opened Decimal
  import opened Text

  /** A value as JSON knows it, and `Other` for what JSON cannot hold; an object's keys are distinct. */
  datatype Json =
    | Null
    | Bool(b: bool)
    | Int(n: int)
    | Str(s: string)
    | Arr(items: seq<Json>)
    | Obj(fields: seq<Field<Json>>)
    | Other

  datatype RegistryError = NotJson

  // ----- Strings: section 7 of RFC 8259 -----

  function Hex(n: nat): char
    requires n < 16
  {
    if n < 10 then '0' + n as char else 'a' + (n - 10) as char
  }

  function Escape(c: char): string {
    if c == '\"' then "\\\""
    else if c == '\\' then "\\\\"
    else if c == '\U{0008}' then "\\b"
    else if c == '\U{000C}' then "\\f"
    else if c == '\n' then "\\n"
    else if c == '\r' then "\\r"
    else if c == '\t' then "\\t"
    else if c < ' ' then "\\u00" + [Hex(c as int / 16), Hex(c as int % 16)]
    else [c]
  }

  function Escaped(s: string): string {
    if s == [] then "" else Escape(s[0]) + Escaped(s[1..])
  }

  function Quoted(s: string): string {
    "\"" + Escaped(s) + "\""
  }

  /** A control character without a short form is written with two lower-case hexadecimal digits. */
  lemma {:induction false} ControlIsLowerCase(c: char)
    requires c < ' ' && c !in {'\U{0008}', '\U{000C}', '\n', '\r', '\t'}
    ensures var e := Escape(c);
      |e| == 6 && e[..4] == "\\u00" && e[4] in "01" && e[5] in "0123456789abcdef"
  {
    var digits := "0123456789abcdef";
    assert digits[c as int % 16] == Hex(c as int % 16);
    assert Hex(c as int / 16) == if c as int < 16 then '0' else '1';
  }

  lemma {:induction false} HexDistinct(m: nat, n: nat)
    requires m < 16 && n < 16 && Hex(m) == Hex(n)
    ensures m == n
  {
  }

  /** One character's escape is never a prefix of another's. */
  lemma {:induction false} EscapeDistinct(c: char, d: char)
    requires Escape(c) <= Escape(d)
    ensures c == d
  {
    var e, f := Escape(c), Escape(d);
    assert e[0] == f[0];
    if e[0] == '\\' {
      assert e[1] == f[1];
      if e[1] == 'u' {
        assert e[4] == f[4] && e[5] == f[5];
        HexDistinct(c as int / 16, d as int / 16);
        HexDistinct(c as int % 16, d as int % 16);
      }
    }
  }

  lemma {:induction false} EscapeHead(c: char)
    ensures Escape(c) != "" && Escape(c)[0] != '\"'
  {
  }

  // ----- The canonical text -----

  /** Members sorted by name, elements in place; `Other` throws before anything is written. */
  function Written(before: (string, string) -> bool, v: Json): string
    decreases v, 1, 0
  {
    match v
    case Null => "null"
    case Bool(b) => if b then "true" else "false"
    case Int(n) => FormatInteger(n)
    case Str(s) => Quoted(s)
    case Arr(items) => "[" + Join(Elements(before, v, items), ',') + "]"
    case Obj(fields) =>
      SortMembers(before, fields);
      "{" + Join(Members(before, v, Sort(before, fields)), ',') + "}"
    case Other => ""
  }

  function Elements(before: (string, string) -> bool, whole: Json, items: seq<Json>): (texts: seq<string>)
    requires whole.Arr? && forall x | x in items :: x in whole.items
    ensures |texts| == |items|
    decreases whole, 0, |items|
  {
    if items == [] then [] else
      assert items[0] in whole.items;
      [Written(before, items[0])] + Elements(before, whole, items[1..])
  }

  function Members(before: (string, string) -> bool, whole: Json, fields: seq<Field<Json>>): (texts: seq<string>)
    requires whole.Obj? && forall f | f in fields :: f in whole.fields
    ensures |texts| == |fields|
    decreases whole, 0, |fields|
  {
    if fields == [] then [] else
      assert fields[0] in whole.fields;
      [Quoted(fields[0].name) + ":" + Written(before, fields[0].value)] + Members(before, whole, fields[1..])
  }

  /** JSON all through. */
  predicate IsJson(v: Json) {
    match v
    case Arr(items) => forall x | x in items :: IsJson(x)
    case Obj(fields) => forall f | f in fields :: IsJson(f.value)
    case Other => false
    case _ => true
  }

  function CanonicalValue(before: (string, string) -> bool, v: Json): Result<string, RegistryError> {
    if IsJson(v) then Ok(Written(before, v)) else Err(NotJson)
  }

  /** Somewhere in the value. */
  ghost predicate Within(part: Json, v: Json) {
    || part == v
    || match v
       case Arr(items) => exists x | x in items :: Within(part, x)
       case Obj(fields) => exists f | f in fields :: Within(part, f.value)
       case _ => false
  }

  /** A value has a text exactly when nothing in it, however deep, is beyond JSON. */
  lemma {:induction false} HasTextIff(before: (string, string) -> bool, v: Json)
    ensures CanonicalValue(before, v).Ok? <==> !Within(Other, v)
  {
    match v {
      case Arr(items) => forall x | x in items { HasTextIff(before, x); }
      case Obj(fields) => forall f | f in fields { HasTextIff(before, f.value); }
      case _ =>
    }
  }

  /** Every object's names are distinct, as an object's keys are. */
  ghost predicate Proper(v: Json) {
    match v
    case Arr(items) => forall x | x in items :: Proper(x)
    case Obj(fields) => DistinctNames(fields) && forall f | f in fields :: Proper(f.value)
    case Other => false
    case _ => true
  }

  // ----- What a value means -----

  /** A value without the order of its objects' keys. */
  datatype Tree =
    | NullTree
    | BoolTree(b: bool)
    | IntTree(n: int)
    | StrTree(s: string)
    | ArrTree(items: seq<Tree>)
    | ObjTree(fields: map<string, Tree>)
    | OtherTree

  function Meaning(v: Json): Tree
    decreases v, 1, 0
  {
    match v
    case Null => NullTree
    case Bool(b) => BoolTree(b)
    case Int(n) => IntTree(n)
    case Str(s) => StrTree(s)
    case Arr(items) => ArrTree(ElementMeanings(v, items))
    case Obj(fields) => ObjTree(FieldMeanings(v, fields))
    case Other => OtherTree
  }

  function ElementMeanings(whole: Json, items: seq<Json>): (trees: seq<Tree>)
    requires whole.Arr? && forall x | x in items :: x in whole.items
    ensures |trees| == |items|
    decreases whole, 0, |items|
  {
    if items == [] then [] else
      assert items[0] in whole.items;
      [Meaning(items[0])] + ElementMeanings(whole, items[1..])
  }

  function FieldMeanings(whole: Json, fields: seq<Field<Json>>): map<string, Tree>
    requires whole.Obj? && forall f | f in fields :: f in whole.fields
    decreases whole, 0, |fields|
  {
    if fields == [] then map[] else
      assert fields[0] in whole.fields;
      FieldMeanings(whole, fields[1..])[fields[0].name := Meaning(fields[0].value)]
  }

  // ----- Texts end where they end -----

  lemma {:induction false} Prefixes(a: string, x: string, b: string, y: string)
    requires a + x == b + y && |a| <= |b|
    ensures a <= b
    ensures a == b ==> x == y
  {
    assert a == (a + x)[..|a|] && b[..|a|] == (b + y)[..|a|];
    assert x == (a + x)[|a|..] && y == (b + y)[|b|..];
  }

  lemma {:induction false} SameCut(a: string, x: string, y: string)
    requires a + x == a + y
    ensures x == y
  {
    Prefixes(a, x, a, y);
  }

  /** What is left of a quoted string and the text after it. */
  function Ending(s: string, x: string): string {
    Escaped(s) + ("\"" + x)
  }

  lemma {:induction false} EndingHead(s: string, x: string)
    ensures s == [] ==> Ending(s, x) == "\"" + x
    ensures s != [] ==> Ending(s, x) == Escape(s[0]) + Ending(s[1..], x)
    ensures Ending(s, x) != [] && (Ending(s, x)[0] == '\"' <==> s == [])
  {
    if s != [] {
      EscapeHead(s[0]);
      Assoc(Escape(s[0]), Escaped(s[1..]), "\"" + x);
    }
  }

  lemma {:induction false} EscapedUnique(s: string, t: string, x: string, y: string)
    requires Ending(s, x) == Ending(t, y)
    ensures s == t && x == y
    decreases |s|
  {
    EndingHead(s, x);
    EndingHead(t, y);
    if s == [] {
      SameCut("\"", x, y);
    } else {
      var e, f := Escape(s[0]), Escape(t[0]);
      var restS, restT := Ending(s[1..], x), Ending(t[1..], y);
      if |e| <= |f| {
        Prefixes(e, restS, f, restT);
        EscapeDistinct(s[0], t[0]);
      } else {
        Prefixes(f, restT, e, restS);
        EscapeDistinct(t[0], s[0]);
      }
      SameCut(e, restS, restT);
      EscapedUnique(s[1..], t[1..], x, y);
      assert s == [s[0]] + s[1..] && t == [t[0]] + t[1..];
    }
  }

  lemma {:induction false} QuotedIs(s: string, x: string)
    ensures Quoted(s) + x == "\"" + Ending(s, x)
  {
    Assoc("\"", Escaped(s), "\"");
    Assoc("\"", Escaped(s) + "\"", x);
    Assoc(Escaped(s), "\"", x);
  }

  lemma {:induction false} QuotedUnique(s: string, t: string, x: string, y: string)
    requires Quoted(s) + x == Quoted(t) + y
    ensures s == t && x == y
  {
    QuotedIs(s, x);
    QuotedIs(t, y);
    SameCut("\"", Ending(s, x), Ending(t, y));
    EscapedUnique(s, t, x, y);
  }

  /** What may follow a value: the end, a comma or a closing bracket. */
  predicate Stops(x: string) {
    x == [] || x[0] in {',', ']', '}'}
  }

  lemma {:induction false} LongerDigits(a: string, b: string, x: string, y: string)
    requires AreDigits(b) && a + x == b + y && |a| < |b|
    ensures !Stops(x)
  {
    DigitsOnly(b);
    assert (a + x)[|a|] == b[|a|] && |x| > 0 && x[0] == (a + x)[|a|];
  }

  lemma {:induction false} DigitsUnique(a: string, b: string, x: string, y: string)
    requires AreDigits(a) && AreDigits(b) && a + x == b + y && Stops(x) && Stops(y)
    ensures a == b && x == y
  {
    if |a| < |b| { LongerDigits(a, b, x, y); }
    if |b| < |a| { LongerDigits(b, a, y, x); }
    Prefixes(a, x, b, y);
  }

  lemma {:induction false} IntegerUnique(m: int, n: int, x: string, y: string)
    requires FormatInteger(m) + x == FormatInteger(n) + y && Stops(x) && Stops(y)
    ensures m == n && x == y
  {
    var a, b := ToDigits(if m < 0 then -m else m), ToDigits(if n < 0 then -n else n);
    DigitsOnly(a);
    DigitsOnly(b);
    assert (FormatInteger(m) + x)[0] == (FormatInteger(n) + y)[0];
    if m < 0 {
      Assoc("-", a, x);
      Assoc("-", b, y);
      SameCut("-", a + x, b + y);
    }
    DigitsUnique(a, b, x, y);
    FromToDigits(if m < 0 then -m else m);
    FromToDigits(if n < 0 then -n else n);
  }

  // ----- One text, one meaning -----

  /** The kind of value a first character announces; brackets and commas announce none. */
  function Announced(c: char): nat {
    if c == 'n' then 0
    else if c == 't' || c == 'f' then 1
    else if c == '-' || IsDigit(c) then 2
    else if c == '\"' then 3
    else if c == '[' then 4
    else if c == '{' then 5
    else 6
  }

  function Kind(v: Json): nat {
    match v
    case Null => 0
    case Bool(_) => 1
    case Int(_) => 2
    case Str(_) => 3
    case Arr(_) => 4
    case Obj(_) => 5
    case Other => 6
  }

  lemma {:induction false} WrittenHead(before: (string, string) -> bool, v: Json)
    requires Proper(v)
    ensures Written(before, v) != "" && Announced(Written(before, v)[0]) == Kind(v) < 6
  {
    if v.Int? { DigitsOnly(ToDigits(if v.n < 0 then -v.n else v.n)); }
  }

  /** A list's texts, closed, and the text after it. */
  function Closing(texts: seq<string>, close: char, x: string): string {
    Join(texts, ',') + ([close] + x)
  }

  function After(texts: seq<string>, close: char, x: string): string {
    if texts == [] then [close] + x else "," + Closing(texts, close, x)
  }

  lemma {:induction false} ClosingHead(texts: seq<string>, close: char, x: string)
    requires texts != []
    ensures Closing(texts, close, x) == texts[0] + After(texts[1..], close, x)
  {
    if |texts| > 1 {
      Assoc(texts[0] + ",", Join(texts[1..], ','), [close] + x);
      Assoc(texts[0], ",", Closing(texts[1..], close, x));
    }
  }

  lemma {:induction false} AfterUnique(a: seq<string>, b: seq<string>, close: char, x: string, y: string)
    requires After(a, close, x) == After(b, close, y) && close != ','
    ensures a == [] <==> b == []
    ensures if a == [] then x == y else Closing(a, close, x) == Closing(b, close, y)
  {
    assert After(a, close, x)[0] == After(b, close, y)[0];
    if a == [] {
      SameCut([close], x, y);
    } else {
      SameCut(",", Closing(a, close, x), Closing(b, close, y));
    }
  }

  lemma {:induction false} ListIs(open: string, texts: seq<string>, close: char, x: string)
    ensures open + Join(texts, ',') + [close] + x == open + Closing(texts, close, x)
  {
    Assoc(open, Join(texts, ','), [close]);
    Assoc(open, Join(texts, ',') + [close], x);
    Assoc(Join(texts, ','), [close], x);
  }

  lemma {:induction false} FieldTextIs(name: string, value: string, x: string)
    ensures Quoted(name) + ":" + value + x == Quoted(name) + (":" + (value + x))
  {
    Assoc(Quoted(name), ":", value);
    Assoc(Quoted(name), ":" + value, x);
    Assoc(":", value, x);
  }

  lemma {:induction false} Unique(before: (string, string) -> bool, v: Json, w: Json, x: string, y: string)
    requires Proper(v) && Proper(w) && Stops(x) && Stops(y)
    requires Written(before, v) + x == Written(before, w) + y
    ensures Meaning(v) == Meaning(w) && x == y
    decreases v, 1, 0
  {
    WrittenHead(before, v);
    WrittenHead(before, w);
    assert Written(before, v)[0] == (Written(before, v) + x)[0] && Written(before, w)[0] == (Written(before, w) + y)[0];
    assert Kind(v) == Kind(w);
    match v {
      case Null => SameCut("null", x, y);
      case Bool(b) => SameCut(Written(before, v), x, y);
      case Int(n) => IntegerUnique(n, w.n, x, y);
      case Str(s) => QuotedUnique(s, w.s, x, y);
      case Arr(items) =>
        ListIs("[", Elements(before, v, items), ']', x);
        ListIs("[", Elements(before, w, w.items), ']', y);
        SameCut("[", Closing(Elements(before, v, items), ']', x), Closing(Elements(before, w, w.items), ']', y));
        ElementsUnique(before, v, w, items, w.items, x, y);
      case Obj(fields) =>
        SortMembers(before, fields);
        SortMembers(before, w.fields);
        var a, b := Sort(before, fields), Sort(before, w.fields);
        ListIs("{", Members(before, v, a), '}', x);
        ListIs("{", Members(before, w, b), '}', y);
        SameCut("{", Closing(Members(before, v, a), '}', x), Closing(Members(before, w, b), '}', y));
        MembersUnique(before, v, w, a, b, x, y);
        SortedMeanings(before, v);
        SortedMeanings(before, w);
    }
  }

  lemma {:induction false} ElementsUnique(before: (string, string) -> bool, v: Json, w: Json, a: seq<Json>,
                                          b: seq<Json>, x: string, y: string)
    requires Proper(v) && Proper(w) && Stops(x) && Stops(y)
    requires v.Arr? && w.Arr? && (forall i | i in a :: i in v.items) && forall i | i in b :: i in w.items
    requires Closing(Elements(before, v, a), ']', x) == Closing(Elements(before, w, b), ']', y)
    ensures ElementMeanings(v, a) == ElementMeanings(w, b) && x == y
    decreases v, 0, |a|
  {
    ClosedElements(before, v, a, x);
    ClosedElements(before, w, b, y);
    if a == [] {
      SameCut("]", x, y);
    } else {
      var restA, restB := After(Elements(before, v, a[1..]), ']', x), After(Elements(before, w, b[1..]), ']', y);
      assert a[0] in v.items && b[0] in w.items;
      Unique(before, a[0], b[0], restA, restB);
      AfterUnique(Elements(before, v, a[1..]), Elements(before, w, b[1..]), ']', x, y);
      if a[1..] != [] { ElementsUnique(before, v, w, a[1..], b[1..], x, y); }
    }
  }

  /** Only an empty list starts with its closing bracket. */
  lemma {:induction false} ClosedElements(before: (string, string) -> bool, v: Json, a: seq<Json>, x: string)
    requires Proper(v) && v.Arr? && forall i | i in a :: i in v.items
    ensures var text := Closing(Elements(before, v, a), ']', x);
      && text != [] && (text[0] == ']' <==> a == []) && (a == [] ==> text == "]" + x)
      && (a != [] ==> text == Written(before, a[0]) + After(Elements(before, v, a[1..]), ']', x))
  {
    if a != [] {
      assert a[0] in v.items;
      WrittenHead(before, a[0]);
      ClosingHead(Elements(before, v, a), ']', x);
      assert Elements(before, v, a)[1..] == Elements(before, v, a[1..]);
    }
  }

  lemma {:induction false} MembersUnique(before: (string, string) -> bool, v: Json, w: Json, a: seq<Field<Json>>,
                                         b: seq<Field<Json>>, x: string, y: string)
    requires Proper(v) && Proper(w) && Stops(x) && Stops(y)
    requires v.Obj? && w.Obj? && (forall f | f in a :: f in v.fields) && forall f | f in b :: f in w.fields
    requires Closing(Members(before, v, a), '}', x) == Closing(Members(before, w, b), '}', y)
    ensures FieldMeanings(v, a) == FieldMeanings(w, b) && x == y
    decreases v, 0, |a|
  {
    ClosedMembers(before, v, a, x);
    ClosedMembers(before, w, b, y);
    if a == [] {
      SameCut("}", x, y);
    } else {
      var restA, restB := After(Members(before, v, a[1..]), '}', x), After(Members(before, w, b[1..]), '}', y);
      var valueA, valueB := Written(before, a[0].value), Written(before, b[0].value);
      assert a[0] in v.fields && b[0] in w.fields;
      QuotedUnique(a[0].name, b[0].name, ":" + (valueA + restA), ":" + (valueB + restB));
      SameCut(":", valueA + restA, valueB + restB);
      Unique(before, a[0].value, b[0].value, restA, restB);
      AfterUnique(Members(before, v, a[1..]), Members(before, w, b[1..]), '}', x, y);
      if a[1..] != [] { MembersUnique(before, v, w, a[1..], b[1..], x, y); }
    }
  }

  lemma {:induction false} ClosedMembers(before: (string, string) -> bool, v: Json, a: seq<Field<Json>>, x: string)
    requires v.Obj? && forall f | f in a :: f in v.fields
    ensures var text := Closing(Members(before, v, a), '}', x);
      && text != [] && (text[0] == '}' <==> a == []) && (a == [] ==> text == "}" + x)
      && (a != [] ==>
            text == Quoted(a[0].name)
                    + (":" + (Written(before, a[0].value) + After(Members(before, v, a[1..]), '}', x))))
  {
    if a != [] {
      assert a[0] in v.fields;
      ClosingHead(Members(before, v, a), '}', x);
      assert Members(before, v, a)[1..] == Members(before, v, a[1..]);
      FieldTextIs(a[0].name, Written(before, a[0].value), After(Members(before, v, a[1..]), '}', x));
    }
  }

  lemma {:induction false} DistinctTail(list: seq<Field<Json>>)
    requires DistinctNames(list) && list != []
    ensures DistinctNames(list[1..]) && forall f | f in list[1..] :: f.name != list[0].name
  {
    var rest := list[1..];
    forall f | f in rest ensures f.name != list[0].name {
      var i :| 0 <= i < |rest| && rest[i] == f;
      assert list[i + 1] == f;
    }
  }

  lemma {:induction false} MeaningsAt(v: Json, list: seq<Field<Json>>)
    requires v.Obj? && DistinctNames(list) && forall f | f in list :: f in v.fields
    ensures forall name :: name in FieldMeanings(v, list) <==> exists f | f in list :: f.name == name
    ensures forall f | f in list ::
            f.name in FieldMeanings(v, list) && FieldMeanings(v, list)[f.name] == Meaning(f.value)
  {
    if list != [] {
      DistinctTail(list);
      MeaningsAt(v, list[1..]);
      assert list == [list[0]] + list[1..];
    }
  }

  lemma {:induction false} SortedMeanings(before: (string, string) -> bool, v: Json)
    requires v.Obj? && DistinctNames(v.fields)
    ensures (forall f | f in Sort(before, v.fields) :: f in v.fields)
    ensures FieldMeanings(v, Sort(before, v.fields)) == FieldMeanings(v, v.fields)
  {
    SortMembers(before, v.fields);
    SortDistinct(before, v.fields);
    MeaningsAt(v, v.fields);
    MeaningsAt(v, Sort(before, v.fields));
  }

  // ----- One meaning, one text -----

  /** The members with their values' meanings. */
  function Paired(v: Json, list: seq<Field<Json>>): (pairs: seq<Field<Tree>>)
    requires v.Obj? && forall f | f in list :: f in v.fields
    ensures |pairs| == |list| && forall i | 0 <= i < |list| :: pairs[i] == Field(list[i].name, Meaning(list[i].value))
  {
    if list == [] then [] else [Field(list[0].name, Meaning(list[0].value))] + Paired(v, list[1..])
  }

  lemma {:induction false} InPaired(v: Json, list: seq<Field<Json>>, p: Field<Tree>)
    requires v.Obj? && DistinctNames(list) && forall f | f in list :: f in v.fields
    ensures p in Paired(v, list) <==> p.name in FieldMeanings(v, list) && FieldMeanings(v, list)[p.name] == p.value
  {
    MeaningsAt(v, list);
    if p in Paired(v, list) {
      var i :| 0 <= i < |list| && Paired(v, list)[i] == p;
      assert list[i] in list;
    }
    if p.name in FieldMeanings(v, list) && FieldMeanings(v, list)[p.name] == p.value {
      var f :| f in list && f.name == p.name;
      var i :| 0 <= i < |list| && list[i] == f;
      assert Paired(v, list)[i] in Paired(v, list);
    }
  }

  /** No two keys of any object in the value tie. */
  ghost predicate Untied(before: (string, string) -> bool, v: Json) {
    match v
    case Arr(items) => forall x | x in items :: Untied(before, x)
    case Obj(fields) => NoTie(before, fields) && forall f | f in fields :: Untied(before, f.value)
    case _ => true
  }

  /** Objects of the same meaning have the same keys, and so tie alike. */
  lemma {:induction false} SameKeysTie(before: (string, string) -> bool, v: Json, w: Json)
    requires v.Obj? && w.Obj? && DistinctNames(v.fields) && DistinctNames(w.fields)
    requires FieldMeanings(v, v.fields) == FieldMeanings(w, w.fields) && NoTie(before, v.fields)
    ensures NoTie(before, w.fields)
  {
    MeaningsAt(v, v.fields);
    MeaningsAt(w, w.fields);
    forall i, j | 0 <= i < |w.fields| && 0 <= j < |w.fields| && w.fields[i].name != w.fields[j].name
      ensures !Tie(before, w.fields[i].name, w.fields[j].name)
    {
      var k := IndexOfName(v, w, i);
      var l := IndexOfName(v, w, j);
      assert v.fields[k].name != v.fields[l].name;
    }
  }

  lemma {:induction false} IndexOfName(v: Json, w: Json, i: nat) returns (k: nat)
    requires v.Obj? && w.Obj? && DistinctNames(v.fields) && DistinctNames(w.fields)
    requires FieldMeanings(v, v.fields) == FieldMeanings(w, w.fields) && i < |w.fields|
    ensures k < |v.fields| && v.fields[k].name == w.fields[i].name
  {
    MeaningsAt(v, v.fields);
    MeaningsAt(w, w.fields);
    assert w.fields[i] in w.fields;
    assert w.fields[i].name in FieldMeanings(v, v.fields);
    var f :| f in v.fields && f.name == w.fields[i].name;
    k :| k < |v.fields| && v.fields[k] == f;
  }

  /** Objects of the same meaning whose keys do not tie sort to the same names with the same meanings. */
  lemma {:induction false} SortedPairsAgree(before: (string, string) -> bool, v: Json, w: Json)
    requires WeakOrder(before) && v.Obj? && w.Obj? && DistinctNames(v.fields) && DistinctNames(w.fields)
    requires FieldMeanings(v, v.fields) == FieldMeanings(w, w.fields) && NoTie(before, v.fields)
    ensures (forall f | f in Sort(before, v.fields) :: f in v.fields)
            && (forall f | f in Sort(before, w.fields) :: f in w.fields)
    ensures Paired(v, Sort(before, v.fields)) == Paired(w, Sort(before, w.fields))
  {
    var a, b := Sort(before, v.fields), Sort(before, w.fields);
    SortedMeanings(before, v);
    SortedMeanings(before, w);
    SortDistinct(before, v.fields);
    SortDistinct(before, w.fields);
    SameKeysTie(before, v, w);
    SortAscends(before, v.fields);
    SortAscends(before, w.fields);
    forall p ensures p in Paired(v, a) <==> p in Paired(w, b) {
      InPaired(v, a, p);
      InPaired(w, b, p);
    }
    DistinctCount(Paired(v, a), Paired(w, b));
    DistinctCount(Paired(w, b), Paired(v, a));
    AscendingUnique(before, Paired(v, a), Paired(w, b));
  }

  /** Values equal up to key order have one text, when no two keys of an object tie. */
  lemma {:induction false} SameText(before: (string, string) -> bool, v: Json, w: Json)
    requires WeakOrder(before) && Proper(v) && Proper(w) && Untied(before, v) && Meaning(v) == Meaning(w)
    ensures Written(before, v) == Written(before, w)
    decreases v, 1, 0
  {
    match v {
      case Null =>
      case Bool(_) =>
      case Int(_) =>
      case Str(_) =>
      case Arr(items) => SameElements(before, v, w, items, w.items);
      case Obj(fields) =>
        SortedPairsAgree(before, v, w);
        SameMembers(before, v, w, Sort(before, fields), Sort(before, w.fields));
    }
  }

  lemma {:induction false} SameElements(before: (string, string) -> bool, v: Json, w: Json, a: seq<Json>, b: seq<Json>)
    requires WeakOrder(before) && Proper(v) && Proper(w) && Untied(before, v)
    requires v.Arr? && w.Arr? && (forall i | i in a :: i in v.items) && forall i | i in b :: i in w.items
    requires ElementMeanings(v, a) == ElementMeanings(w, b)
    ensures Elements(before, v, a) == Elements(before, w, b)
    decreases v, 0, |a|
  {
    assert |ElementMeanings(v, a)| == |a| && |ElementMeanings(w, b)| == |b|;
    if a != [] {
      assert a[0] in v.items && b[0] in w.items;
      assert ElementMeanings(v, a)[0] == Meaning(a[0]) && ElementMeanings(w, b)[0] == Meaning(b[0]);
      assert ElementMeanings(v, a)[1..] == ElementMeanings(v, a[1..])
          && ElementMeanings(w, b)[1..] == ElementMeanings(w, b[1..]);
      SameText(before, a[0], b[0]);
      SameElements(before, v, w, a[1..], b[1..]);
    }
  }

  lemma {:induction false} SameMembers(before: (string, string) -> bool, v: Json, w: Json, a: seq<Field<Json>>,
                                       b: seq<Field<Json>>)
    requires WeakOrder(before) && Proper(v) && Proper(w) && Untied(before, v)
    requires v.Obj? && w.Obj? && (forall f | f in a :: f in v.fields) && forall f | f in b :: f in w.fields
    requires Paired(v, a) == Paired(w, b)
    ensures Members(before, v, a) == Members(before, w, b)
    decreases v, 0, |a|
  {
    assert |Paired(v, a)| == |a| && |Paired(w, b)| == |b|;
    if a != [] {
      assert a[0] in v.fields && b[0] in w.fields;
      assert Paired(v, a)[0] == Paired(w, b)[0];
      assert Paired(v, a)[1..] == Paired(v, a[1..]) && Paired(w, b)[1..] == Paired(w, b[1..]);
      SameText(before, a[0].value, b[0].value);
      SameMembers(before, v, w, a[1..], b[1..]);
    }
  }

  // ----- Ties -----

  lemma {:induction false} ElementAt(before: (string, string) -> bool, v: Json, list: seq<Json>, i: nat)
    requires v.Arr? && (forall x | x in list :: x in v.items) && i < |list|
    ensures Elements(before, v, list)[i] == Written(before, list[i]) && ElementMeanings(v, list)[i] == Meaning(list[i])
    decreases i
  {
    assert list[0] in v.items;
    if i > 0 {
      ElementAt(before, v, list[1..], i - 1);
      assert Elements(before, v, list)[i] == Elements(before, v, list[1..])[i - 1];
      assert ElementMeanings(v, list)[i] == ElementMeanings(v, list[1..])[i - 1];
    }
  }

  lemma {:induction false} MemberAt(before: (string, string) -> bool, v: Json, list: seq<Field<Json>>, i: nat)
    requires v.Obj? && (forall f | f in list :: f in v.fields) && i < |list|
    ensures Members(before, v, list)[i] == Quoted(list[i].name) + ":" + Written(before, list[i].value)
    decreases i
  {
    assert list[0] in v.fields;
    if i > 0 {
      MemberAt(before, v, list[1..], i - 1);
      assert Members(before, v, list)[i] == Members(before, v, list[1..])[i - 1];
    }
  }

  /** Lists of texts that begin alike and are written alike go on alike. */
  lemma {:induction false} SameRest(a: seq<string>, b: seq<string>, close: char, k: nat)
    requires k < |a| && k < |b| && close != ',' && forall i | 0 <= i < k :: a[i] == b[i]
    requires Closing(a, close, "") == Closing(b, close, "")
    ensures Closing(a[k..], close, "") == Closing(b[k..], close, "")
    decreases k
  {
    if k == 0 {
      assert a[0..] == a && b[0..] == b;
    } else {
      ClosingHead(a, close, "");
      ClosingHead(b, close, "");
      SameCut(a[0], After(a[1..], close, ""), After(b[1..], close, ""));
      AfterUnique(a[1..], b[1..], close, "", "");
      SameRest(a[1..], b[1..], close, k - 1);
      assert a[1..][k - 1..] == a[k..] && b[1..][k - 1..] == b[k..];
    }
  }

  lemma {:induction false} SameFront(a: string, b: string, x: string)
    requires a + x == b + x
    ensures a == b
  {
    assert |a + x| == |b + x|;
    assert a == (a + x)[..|a|] && b == (b + x)[..|b|];
  }

  /** Texts that differ in one place only are not written alike. */
  lemma {:induction false} OneDiffers(a: seq<string>, b: seq<string>, close: char, k: nat)
    requires |a| == |b| && k < |a| && close != ',' && a[k] != b[k]
    requires forall i | 0 <= i < |a| && i != k :: a[i] == b[i]
    ensures Closing(a, close, "") != Closing(b, close, "")
  {
    if Closing(a, close, "") == Closing(b, close, "") {
      SameRest(a, b, close, k);
      ClosingHead(a[k..], close, "");
      ClosingHead(b[k..], close, "");
      assert a[k..][1..] == b[k..][1..];
      SameFront(a[k], b[k], After(a[k..][1..], close, ""));
      assert false;
    }
  }

  /** Members with two neighbours exchanged are not written alike. */
  lemma {:induction false} ExchangeDiffers(a: seq<string>, b: seq<string>, k: nat, m: string, n: string, x: string,
                                           y: string)
    requires |a| == |b| && k < |a| && m != n
    requires forall i | 0 <= i < k :: a[i] == b[i]
    requires a[k] == Quoted(m) + (":" + x) && b[k] == Quoted(n) + (":" + y)
    ensures Closing(a, '}', "") != Closing(b, '}', "")
  {
    if Closing(a, '}', "") == Closing(b, '}', "") {
      SameRest(a, b, '}', k);
      ClosingHead(a[k..], '}', "");
      ClosingHead(b[k..], '}', "");
      var restA, restB := After(a[k..][1..], '}', ""), After(b[k..][1..], '}', "");
      Assoc(Quoted(m), ":" + x, restA);
      Assoc(Quoted(n), ":" + y, restB);
      QuotedUnique(m, n, ":" + x + restA, ":" + y + restB);
      assert false;
    }
  }

  /** Closed lists that differ are lists that differ. */
  lemma {:induction false} ListsDiffer(open: string, a: seq<string>, b: seq<string>, close: char)
    requires Closing(a, close, "") != Closing(b, close, "")
    ensures open + Join(a, ',') + [close] != open + Join(b, ',') + [close]
  {
    ListIs(open, a, close, "");
    ListIs(open, b, close, "");
    if open + Join(a, ',') + [close] == open + Join(b, ',') + [close] {
      SameCut(open, Closing(a, close, ""), Closing(b, close, ""));
      assert false;
    }
  }

  /** An object whose members stand in order already. */
  lemma {:induction false} OrderedText(before: (string, string) -> bool, list: seq<Field<Json>>)
    requires InOrder(before, list)
    ensures Written(before, Obj(list)) == "{" + Join(Members(before, Obj(list), list), ',') + "}"
  {
    SortStays(before, list);
  }

  /** The list has a member of the same name and meaning. */
  ghost predicate Matched(f: Field<Json>, list: seq<Field<Json>>) {
    exists g :: g in list && g.name == f.name && Meaning(g.value) == Meaning(f.value)
  }

  /** An object and any list of the same keys and meanings. */
  lemma {:induction false} SameObject(v: Json, list: seq<Field<Json>>)
    requires v.Obj? && DistinctNames(v.fields) && DistinctNames(list)
    requires (forall f | f in v.fields :: Matched(f, list)) && (forall g | g in list :: Matched(g, v.fields))
    ensures Meaning(Obj(list)) == Meaning(v)
  {
    MeaningsWithin(v, v.fields, Obj(list), list);
    MeaningsWithin(Obj(list), list, v, v.fields);
    assert FieldMeanings(v, v.fields) == FieldMeanings(Obj(list), list);
  }

  lemma {:induction false} MeaningsWithin(v: Json, a: seq<Field<Json>>, w: Json, b: seq<Field<Json>>)
    requires v.Obj? && w.Obj? && (forall f | f in a :: f in v.fields) && forall f | f in b :: f in w.fields
    requires DistinctNames(a) && DistinctNames(b) && forall f | f in a :: Matched(f, b)
    ensures forall name | name in FieldMeanings(v, a) ::
      name in FieldMeanings(w, b) && FieldMeanings(w, b)[name] == FieldMeanings(v, a)[name]
  {
    MeaningsAt(v, a);
    MeaningsAt(w, b);
    forall name | name in FieldMeanings(v, a)
      ensures name in FieldMeanings(w, b) && FieldMeanings(w, b)[name] == FieldMeanings(v, a)[name]
    {
      var f :| f in a && f.name == name;
      var g :| g in b && g.name == f.name && Meaning(g.value) == Meaning(f.value);
    }
  }

  lemma {:induction false} ElementChanged(before: (string, string) -> bool, items: seq<Json>, i: nat, x: Json)
    requires i < |items| && Meaning(x) == Meaning(items[i]) && Written(before, x) != Written(before, items[i])
    ensures var changed := items[i := x];
      var a, b := Elements(before, Arr(changed), changed), Elements(before, Arr(items), items);
      && a[i] != b[i] && (forall k | 0 <= k < |items| && k != i :: a[k] == b[k])
      && ElementMeanings(Arr(changed), changed) == ElementMeanings(Arr(items), items)
  {
    var changed := items[i := x];
    forall k | 0 <= k < |items|
      ensures Elements(before, Arr(items), items)[k] == Written(before, items[k])
      ensures Elements(before, Arr(changed), changed)[k] == Written(before, changed[k])
      ensures ElementMeanings(Arr(changed), changed)[k] == ElementMeanings(Arr(items), items)[k]
    {
      ElementAt(before, Arr(items), items, k);
      ElementAt(before, Arr(changed), changed, k);
    }
  }

  /** One element written otherwise makes an array written otherwise. */
  lemma {:induction false} ElementShows(before: (string, string) -> bool, items: seq<Json>, i: nat, x: Json)
    returns (w: Json)
    requires i < |items| && Meaning(x) == Meaning(items[i]) && Written(before, x) != Written(before, items[i])
    requires Proper(Arr(items)) && Proper(x)
    ensures Proper(w) && Meaning(w) == Meaning(Arr(items)) && Written(before, w) != Written(before, Arr(items))
  {
    var v := Arr(items);
    var changed := items[i := x];
    w := Arr(changed);
    ElementChanged(before, items, i, x);
    OneDiffers(Elements(before, w, changed), Elements(before, v, items), ']', i);
    ListsDiffer("[", Elements(before, w, changed), Elements(before, v, items), ']');
  }

  /** The members of an object in the order they are written. */
  lemma {:induction false} SortedFacts(before: (string, string) -> bool, fields: seq<Field<Json>>)
    requires WeakOrder(before) && Proper(Obj(fields))
    ensures var list := Sort(before, fields);
      && InOrder(before, list) && Proper(Obj(list)) && (forall f :: f in list <==> f in fields)
      && Written(before, Obj(list)) == Written(before, Obj(fields)) && Meaning(Obj(list)) == Meaning(Obj(fields))
  {
    var list := Sort(before, fields);
    SortInOrder(before, fields);
    SortMembers(before, fields);
    SortDistinct(before, fields);
    OrderedText(before, list);
    SameMemberTexts(before, Obj(list), Obj(fields), list);
    forall f | f in fields ensures Matched(f, list) { }
    forall f | f in list ensures Matched(f, fields) { }
    SameObject(Obj(fields), list);
  }

  lemma {:induction false} SameMemberTexts(before: (string, string) -> bool, v: Json, w: Json, list: seq<Field<Json>>)
    requires v.Obj? && w.Obj? && (forall f | f in list :: f in v.fields) && forall f | f in list :: f in w.fields
    ensures Members(before, v, list) == Members(before, w, list)
  {
    forall i | 0 <= i < |list| ensures Members(before, v, list)[i] == Members(before, w, list)[i] {
      MemberAt(before, v, list, i);
      MemberAt(before, w, list, i);
    }
  }

  /** One member's value written otherwise makes an object written otherwise. */
  lemma {:induction false} MemberShows(before: (string, string) -> bool, list: seq<Field<Json>>, i: nat, x: Json)
    returns (w: Json)
    requires InOrder(before, list) && Proper(Obj(list)) && Proper(x) && i < |list|
    requires Meaning(x) == Meaning(list[i].value) && Written(before, x) != Written(before, list[i].value)
    ensures Proper(w) && Meaning(w) == Meaning(Obj(list)) && Written(before, w) != Written(before, Obj(list))
  {
    var changed := list[i := Field(list[i].name, x)];
    w := Obj(changed);
    ChangedTexts(before, list, i, x);
    OneDiffers(Members(before, w, changed), Members(before, Obj(list), list), '}', i);
    ListsDiffer("{", Members(before, w, changed), Members(before, Obj(list), list), '}');
    OrderedText(before, list);
    OrderedText(before, changed);
    ChangedMeaning(list, i, x);
  }

  /** The texts of the members differ in the changed one only. */
  lemma {:induction false} ChangedTexts(before: (string, string) -> bool, list: seq<Field<Json>>, i: nat, x: Json)
    requires i < |list| && Written(before, x) != Written(before, list[i].value)
    ensures var changed := list[i := Field(list[i].name, x)];
      var a, b := Members(before, Obj(changed), changed), Members(before, Obj(list), list);
      a[i] != b[i] && forall k | 0 <= k < |list| && k != i :: a[k] == b[k]
  {
    var changed := list[i := Field(list[i].name, x)];
    forall k | 0 <= k < |list|
      ensures Members(before, Obj(list), list)[k] == Quoted(list[k].name) + ":" + Written(before, list[k].value)
      ensures Members(before, Obj(changed), changed)[k]
           == Quoted(changed[k].name) + ":" + Written(before, changed[k].value)
    {
      MemberAt(before, Obj(list), list, k);
      MemberAt(before, Obj(changed), changed, k);
    }
    var head := Quoted(list[i].name) + ":";
    if head + Written(before, x) == head + Written(before, list[i].value) {
      SameCut(head, Written(before, x), Written(before, list[i].value));
      assert false;
    }
  }

  lemma {:induction false} ChangedMeaning(list: seq<Field<Json>>, i: nat, x: Json)
    requires Proper(Obj(list)) && Proper(x) && i < |list| && Meaning(x) == Meaning(list[i].value)
    ensures var changed := list[i := Field(list[i].name, x)];
      Proper(Obj(changed)) && Meaning(Obj(changed)) == Meaning(Obj(list))
  {
    var changed := list[i := Field(list[i].name, x)];
    forall f | f in list ensures Matched(f, changed) {
      var k :| 0 <= k < |list| && list[k] == f;
      assert changed[k] in changed;
    }
    forall g | g in changed ensures Matched(g, list) {
      var k :| 0 <= k < |changed| && changed[k] == g;
      assert list[k] in list;
    }
    SameObject(Obj(list), changed);
  }

  /** Two neighbours that tie may stand in either order, and the text tells which. */
  lemma {:induction false} TieShows(before: (string, string) -> bool, list: seq<Field<Json>>, k: nat) returns (w: Json)
    requires WeakOrder(before) && InOrder(before, list) && Proper(Obj(list))
    requires k + 1 < |list| && Tie(before, list[k].name, list[k + 1].name)
    ensures Proper(w) && Meaning(w) == Meaning(Obj(list)) && Written(before, w) != Written(before, Obj(list))
  {
    var swapped := Exchanged(list, k);
    w := Obj(swapped);
    ExchangedInOrder(before, list, k);
    OrderedText(before, list);
    OrderedText(before, swapped);
    forall i | 0 <= i < |list|
      ensures Members(before, Obj(list), list)[i] == Quoted(list[i].name) + ":" + Written(before, list[i].value)
      ensures Members(before, w, swapped)[i] == Quoted(swapped[i].name) + ":" + Written(before, swapped[i].value)
    {
      MemberAt(before, Obj(list), list, i);
      MemberAt(before, w, swapped, i);
    }
    var m, n := list[k], list[k + 1];
    Assoc(Quoted(m.name), ":", Written(before, m.value));
    Assoc(Quoted(n.name), ":", Written(before, n.value));
    ExchangeDiffers(Members(before, Obj(list), list), Members(before, w, swapped), k, m.name, n.name,
                    Written(before, m.value), Written(before, n.value));
    ListsDiffer("{", Members(before, Obj(list), list), Members(before, w, swapped), '}');
    SwappedMeaning(list, k);
  }

  lemma {:induction false} SwappedMeaning(list: seq<Field<Json>>, k: nat)
    requires Proper(Obj(list)) && k + 1 < |list|
    ensures Proper(Obj(Exchanged(list, k))) && Meaning(Obj(Exchanged(list, k))) == Meaning(Obj(list))
  {
    var swapped := Exchanged(list, k);
    ExchangedMembers(list, k);
    ExchangedDistinct(list, k);
    forall f | f in list ensures Matched(f, swapped) { }
    forall f | f in swapped ensures Matched(f, list) { }
    SameObject(Obj(list), swapped);
  }

  /** A tie anywhere in a value gives another value of the same meaning with another text. */
  lemma {:induction false} TiesShow(before: (string, string) -> bool, v: Json) returns (w: Json)
    requires WeakOrder(before) && Proper(v) && !Untied(before, v)
    ensures Proper(w) && Meaning(w) == Meaning(v) && Written(before, w) != Written(before, v)
    decreases v
  {
    match v {
      case Arr(items) =>
        var x :| x in items && !Untied(before, x);
        var i :| 0 <= i < |items| && items[i] == x;
        var y := TiesShow(before, x);
        w := ElementShows(before, items, i, y);
      case Obj(fields) =>
        var list := Sort(before, fields);
        SortedFacts(before, fields);
        if f :| f in fields && !Untied(before, f.value) {
          var y := TiesShow(before, f.value);
          var i :| 0 <= i < |list| && list[i] == f;
          w := MemberShows(before, list, i, y);
        } else {
          var k := TiedNeighbours(before, fields, list);
          w := TieShows(before, list, k);
        }
    }
  }

  lemma TiedNeighbours(before: (string, string) -> bool, fields: seq<Field<Json>>, list: seq<Field<Json>>)
    returns (k: nat)
    requires WeakOrder(before) && InOrder(before, list) && !NoTie(before, fields)
    requires forall f :: f in list <==> f in fields
    ensures k + 1 < |list| && Tie(before, list[k].name, list[k + 1].name)
  {
    var i, j :| 0 <= i < |fields| && 0 <= j < |fields| && fields[i].name != fields[j].name
      && Tie(before, fields[i].name, fields[j].name);
    assert fields[i] in list && fields[j] in list;
    var a: nat :| a < |list| && list[a] == fields[i];
    var b: nat :| b < |list| && list[b] == fields[j];
    k := if a < b then a else b;
    NeighboursTie(before, list, k, if a < b then b else a);
  }

  /** Every value of the same meaning has the same text exactly when no two keys of an object in it tie. */
  lemma {:induction false} OneTextIff(before: (string, string) -> bool, v: Json)
    requires WeakOrder(before) && Proper(v)
    ensures (forall w | Proper(w) && Meaning(w) == Meaning(v) :: Written(before, w) == Written(before, v))
            <==> Untied(before, v)
  {
    if Untied(before, v) {
      forall w | Proper(w) && Meaning(w) == Meaning(v) ensures Written(before, w) == Written(before, v) {
        SameText(before, v, w);
      }
    } else {
      var w := TiesShow(before, v);
    }
  }

  /**
   * The text a signature covers stands for one content only: equal texts, equal values up to key order, whatever
   * the order. Without ties in a value the converse holds too.
   */
  lemma {:induction false} CanonicalIff(before: (string, string) -> bool, v: Json, w: Json)
    requires Proper(v) && Proper(w)
    ensures CanonicalValue(before, v).Ok? && CanonicalValue(before, w).Ok?
    ensures CanonicalValue(before, v) == CanonicalValue(before, w) ==> Meaning(v) == Meaning(w)
    ensures WeakOrder(before) && Untied(before, v) ==>
      (CanonicalValue(before, v) == CanonicalValue(before, w) <==> Meaning(v) == Meaning(w))
  {
    ProperIsJson(v);
    ProperIsJson(w);
    if Written(before, v) == Written(before, w) { Unique(before, v, w, "", ""); }
    if WeakOrder(before) && Untied(before, v) && Meaning(v) == Meaning(w) { SameText(before, v, w); }
  }

  lemma {:induction false} ProperIsJson(v: Json)
    requires Proper(v)
    ensures IsJson(v)
    decreases v
  {
    match v {
      case Arr(items) => forall x | x in items ensures IsJson(x) { ProperIsJson(x); }
      case Obj(fields) => forall f | f in fields ensures IsJson(f.value) { ProperIsJson(f.value); }
      case _ =>
    }
  }

  // ----- Activating a verified registry -----

  datatype Mode = Active | SafeExitOnly
  datatype Activation = Activation(activeVersion: string, rollbackVersion: Option<string>, mode: Mode)
  datatype Release = Release(version: string, previousVersion: Option<string>)
  datatype ActivationError = WrongPredecessor | NoRollback

  function Activate(current: Option<Activation>, candidate: Release): Result<Activation, ActivationError> {
    if current.Some? && candidate.previousVersion != Some(current.value.activeVersion) then Err(WrongPredecessor)
    else Ok(Activation(candidate.version,
                       if current.Some? then Some(current.value.activeVersion) else candidate.previousVersion, Active))
  }

  function Rollback(state: Activation): Result<Activation, ActivationError> {
    match state.rollbackVersion
    case None => Err(NoRollback)
    case Some(version) => Ok(Activation(version, Some(state.activeVersion), SafeExitOnly))
  }

  /** Activating one release after another, from nothing. */
  function Released(releases: seq<Release>): Result<Option<Activation>, ActivationError> {
    if releases == [] then Ok(None)
    else match Released(releases[..|releases| - 1])
    case Err(e) => Err(e)
    case Ok(current) =>
      match Activate(current, releases[|releases| - 1])
      case Err(e) => Err(e)
      case Ok(next) => Ok(Some(next))
  }

  /** A sequence of releases is accepted exactly when each names the one before it, and rolling the last one back
    * restores the version before it, in safe-exit mode. */
  lemma {:induction false} ReleasedIff(releases: seq<Release>)
    ensures Released(releases).Ok? <==>
      forall i | 1 <= i < |releases| :: releases[i].previousVersion == Some(releases[i - 1].version)
    ensures Released(releases).Ok? ==>
      if releases == [] then Released(releases).value == None
      else
        && Released(releases).value.Some?
        && Released(releases).value.value.activeVersion == releases[|releases| - 1].version
    ensures Released(releases).Ok? && releases != [] ==>
      && Released(releases).value.value.mode == Active
      && (|releases| == 1 ==> Released(releases).value.value.rollbackVersion == releases[0].previousVersion)
    ensures Released(releases).Ok? && |releases| >= 2 ==>
      Rollback(Released(releases).value.value) ==
        Ok(Activation(releases[|releases| - 2].version, Some(releases[|releases| - 1].version), SafeExitOnly))
  {
    if releases != [] {
      var init := releases[..|releases| - 1];
      ReleasedIff(init);
      assert forall i | 0 <= i < |init| :: init[i] == releases[i];
    }
  }
}
