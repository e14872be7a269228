/** Reading JSON text by the grammar of RFC 8259, whole numbers only: what the canonical text is text of. */
module JsonText {
  import opened Wrappers
  import opened Text
  import opened Decimal
  import opened Sorting
  import opened Registry

  // ----- The reader -----

  function HexValue(c: char): Option<nat> {
    if '0' <= c <= '9' then Some((c - '0') as nat)
    else if 'a' <= c <= 'f' then Some((c - 'a') as nat + 10)
    else if 'A' <= c <= 'F' then Some((c - 'A') as nat + 10)
    else None
  }

  function CodeOf(t: string): Option<nat>
    requires |t| == 4
  {
    var a, b, c, d := HexValue(t[0]), HexValue(t[1]), HexValue(t[2]), HexValue(t[3]);
    if a.Some? && b.Some? && c.Some? && d.Some? then Some(((a.value * 16 + b.value) * 16 + c.value) * 16 + d.value)
    else None
  }

  /** One character of a string, written as it is or escaped (section 7 of RFC 8259). */
  function ReadChar(t: string): (r: Option<(char, string)>)
    requires t != ""
    ensures r.Some? ==> |r.value.1| < |t|
  {
    if t[0] != '\\' then if t[0] < ' ' then None else Some((t[0], t[1..]))
    else if |t| < 2 then None
    else if t[1] == 'u' then
      if |t| < 6 then None
      else match CodeOf(t[2..6])
      case None => None
      case Some(code) => if code < 0xD800 then Some((code as char, t[6..])) else None
    else match Unescaped(t[1])
    case None => None
    case Some(c) => Some((c, t[2..]))
  }

  function Unescaped(c: char): Option<char> {
    if c in {'\"', '\\', '/'} then Some(c)
    else if c == 'b' then Some('\U{0008}')
    else if c == 'f' then Some('\U{000C}')
    else if c == 'n' then Some('\n')
    else if c == 'r' then Some('\r')
    else if c == 't' then Some('\t')
    else None
  }

  /** The rest of a string, after its opening quote. */
  function ReadString(t: string): (r: Option<(string, string)>)
    ensures r.Some? ==> |r.value.1| < |t|
    decreases |t|
  {
    if t == "" then None
    else if t[0] == '\"' then Some(("", t[1..]))
    else match ReadChar(t)
    case None => None
    case Some((c, rest)) =>
      match ReadString(rest)
      case None => None
      case Some((s, after)) => Some(([c] + s, after))
  }

  function DigitsIn(t: string): (k: nat)
    ensures k <= |t|
  {
    if t == "" || !IsDigit(t[0]) then 0 else 1 + DigitsIn(t[1..])
  }

  function ReadDigits(t: string): (r: Option<(nat, string)>)
    ensures r.Some? ==> |r.value.1| < |t|
  {
    var k := DigitsIn(t);
    if k == 0 || (t[0] == '0' && k > 1) then None
    else if k < |t| && t[k] in {'.', 'e', 'E'} then None
    else if !AreDigits(t[..k]) then None
    else Some((FromDigits(t[..k]), t[k..]))
  }

  function ReadNumber(t: string): (r: Option<(Tree, string)>)
    ensures r.Some? ==> |r.value.1| < |t|
  {
    if t != "" && t[0] == '-' then
      match ReadDigits(t[1..])
      case None => None
      case Some((n, rest)) => Some((IntTree(-(n as int)), rest))
    else
      match ReadDigits(t)
      case None => None
      case Some((n, rest)) => Some((IntTree(n), rest))
  }

  function ReadValue(t: string): (r: Option<(Tree, string)>)
    ensures r.Some? ==> |r.value.1| < |t|
    decreases |t|, 1
  {
    if t == "" then None
    else if "null" <= t then Some((NullTree, t[4..]))
    else if "true" <= t then Some((BoolTree(true), t[4..]))
    else if "false" <= t then Some((BoolTree(false), t[5..]))
    else if t[0] == '\"' then
      match ReadString(t[1..])
      case None => None
      case Some((s, rest)) => Some((StrTree(s), rest))
    else if t[0] == '[' then
      if |t| > 1 && t[1] == ']' then Some((ArrTree([]), t[2..]))
      else match ReadItems(t[1..])
      case None => None
      case Some((items, rest)) => Some((ArrTree(items), rest))
    else if t[0] == '{' then
      if |t| > 1 && t[1] == '}' then Some((ObjTree(map[]), t[2..]))
      else match ReadMembers(t[1..])
      case None => None
      case Some((fields, rest)) => Some((ObjTree(fields), rest))
    else ReadNumber(t)
  }

  /** One value or more, with commas between them, up to the closing bracket. */
  function ReadItems(t: string): (r: Option<(seq<Tree>, string)>)
    ensures r.Some? ==> |r.value.1| < |t|
    decreases |t|, 2
  {
    match ReadValue(t)
    case None => None
    case Some((item, rest)) =>
      if rest == "" then None
      else if rest[0] == ']' then Some(([item], rest[1..]))
      else if rest[0] != ',' then None
      else match ReadItems(rest[1..])
      case None => None
      case Some((items, after)) => Some(([item] + items, after))
  }

  /** Members likewise; of two of one name the later one stands. */
  function ReadMembers(t: string): (r: Option<(map<string, Tree>, string)>)
    ensures r.Some? ==> |r.value.1| < |t|
    decreases |t|, 2
  {
    if t == "" || t[0] != '\"' then None
    else match ReadString(t[1..])
    case None => None
    case Some((name, colon)) =>
      if colon == "" || colon[0] != ':' then None
      else match ReadValue(colon[1..])
      case None => None
      case Some((value, rest)) =>
        if rest == "" then None
        else if rest[0] == '}' then Some((map[name := value], rest[1..]))
        else if rest[0] != ',' then None
        else match ReadMembers(rest[1..])
        case None => None
        case Some((fields, after)) => Some((if name in fields then fields else fields[name := value], after))
  }

  // ----- Strings and numbers -----

  lemma HexReads(n: nat)
    requires n < 16
    ensures HexValue(Hex(n)) == Some(n)
  {
  }

  lemma {:induction false} ControlReads(c: char, t: string)
    requires c < ' '
    ensures ReadChar("\\u00" + [Hex(c as int / 16), Hex(c as int % 16)] + t) == Some((c, t))
  {
    var high, low := Hex(c as int / 16), Hex(c as int % 16);
    var text := "\\u00" + [high, low] + t;
    HexReads(c as int / 16);
    HexReads(c as int % 16);
    assert text[0] == '\\' && text[1] == 'u' && text[2..6] == ['0', '0', high, low] && text[6..] == t;
  }

  lemma {:induction false} EscapeReads(c: char, t: string)
    ensures Escape(c) + t != "" && (Escape(c) + t)[0] != '\"'
    ensures ReadChar(Escape(c) + t) == Some((c, t))
  {
    var text := Escape(c) + t;
    if |Escape(c)| == 1 {
      assert text[1..] == t;
    } else if |Escape(c)| == 2 {
      assert text[2..] == t;
    } else {
      ControlReads(c, t);
    }
  }

  /** A string is read back up to its closing quote. */
  lemma {:induction false} StringReads(s: string, x: string)
    ensures ReadString(Ending(s, x)) == Some((s, x))
    decreases |s|
  {
    EndingHead(s, x);
    if s != [] {
      EscapeReads(s[0], Ending(s[1..], x));
      StringReads(s[1..], x);
      assert s == [s[0]] + s[1..];
    }
  }

  lemma {:induction false} DigitsCounted(digits: string, x: string)
    requires AreDigits(digits) && Stops(x)
    ensures DigitsIn(digits + x) == |digits|
    decreases |digits|
  {
    if digits == [] {
      assert digits + x == x;
    } else {
      DigitsOnly(digits);
      DigitsSplit(digits, 1);
      assert (digits + x)[1..] == digits[1..] + x;
      DigitsCounted(digits[1..], x);
    }
  }

  lemma {:induction false} DigitsRead(n: nat, x: string)
    requires Stops(x)
    ensures ReadDigits(ToDigits(n) + x) == Some((n, x))
  {
    var digits := ToDigits(n);
    var t := digits + x;
    DigitsCounted(digits, x);
    FromToDigits(n);
    assert t[..|digits|] == digits && t[|digits|..] == x;
    if n > 0 { NoLeadingZero(n); }
  }

  lemma {:induction false} SignReads(t: string, n: nat, x: string)
    requires ReadDigits(t) == Some((n, x))
    ensures ReadNumber("-" + t) == Some((IntTree(-(n as int)), x))
    ensures t != "" && t[0] != '-' ==> ReadNumber(t) == Some((IntTree(n), x))
  {
    assert ("-" + t)[0] == '-' && ("-" + t)[1..] == t;
  }

  lemma {:induction false} NumberReads(n: int, x: string)
    requires Stops(x)
    ensures ReadNumber(FormatInteger(n) + x) == Some((IntTree(n), x))
  {
    var digits := ToDigits(if n < 0 then -n else n);
    DigitsRead(if n < 0 then -n else n, x);
    SignReads(digits + x, if n < 0 then -n else n, x);
    DigitsOnly(digits);
    assert (digits + x)[0] == digits[0];
    assert n < 0 ==> FormatInteger(n) + x == "-" + (digits + x);
  }

  // ----- Every canonical text is JSON, and means its value -----

  lemma {:induction false} IntegerReads(n: int, x: string)
    requires Stops(x)
    ensures ReadValue(FormatInteger(n) + x) == Some((IntTree(n), x))
  {
    NumberReads(n, x);
    DigitsOnly(ToDigits(if n < 0 then -n else n));
    var t := FormatInteger(n) + x;
    assert t[0] == '-' || IsDigit(t[0]);
  }

  lemma {:induction false} QuotedReads(s: string, x: string)
    ensures ReadValue(Quoted(s) + x) == Some((StrTree(s), x))
  {
    QuotedIs(s, x);
    StringReads(s, x);
    assert ("\"" + Ending(s, x))[1..] == Ending(s, x);
  }

  /** Canonical text, whatever follows it, is read as the value's meaning, and reading stops where the text ends. */
  lemma {:induction false} ValueReads(before: (string, string) -> bool, v: Json, x: string)
    requires Proper(v) && Stops(x)
    ensures ReadValue(Written(before, v) + x) == Some((Meaning(v), x))
    decreases v, 1, 0
  {
    match v {
      case Null => assert ("null" + x)[4..] == x;
      case Bool(b) => BoolReads(b, x);
      case Int(n) => IntegerReads(n, x);
      case Str(s) => QuotedReads(s, x);
      case Arr(items) =>
        ListIs("[", Elements(before, v, items), ']', x);
        ElementsRead(before, v, items, x);
        ClosedElements(before, v, items, x);
        EmptyReads(x);
        if items != [] {
          ArrayReads(Closing(Elements(before, v, items), ']', x), ElementMeanings(v, items), x);
        }
      case Obj(fields) =>
        SortMembers(before, fields);
        SortDistinct(before, fields);
        SortedMeanings(before, v);
        var list := Sort(before, fields);
        ListIs("{", Members(before, v, list), '}', x);
        MembersRead(before, v, list, x);
        ClosedMembers(before, v, list, x);
        EmptyReads(x);
        if list != [] {
          ObjectReads(Closing(Members(before, v, list), '}', x), FieldMeanings(v, list), x);
        }
    }
  }

  lemma {:induction false} BoolReads(b: bool, x: string)
    ensures ReadValue((if b then "true" else "false") + x) == Some((BoolTree(b), x))
  {
    var t := (if b then "true" else "false") + x;
    if b {
      assert t[0] == 't' && t[..4] == "true" && t[4..] == x;
    } else {
      assert t[0] == 'f' && t[..5] == "false" && t[5..] == x;
    }
  }

  lemma {:induction false} ArrayReads(rest: string, items: seq<Tree>, x: string)
    requires rest != "" && rest[0] != ']' && ReadItems(rest) == Some((items, x))
    ensures ReadValue("[" + rest) == Some((ArrTree(items), x))
  {
    var t := "[" + rest;
    assert t[0] == '[' && t[1] == rest[0] && t[1..] == rest;
  }

  lemma {:induction false} ObjectReads(rest: string, fields: map<string, Tree>, x: string)
    requires rest != "" && rest[0] != '}' && ReadMembers(rest) == Some((fields, x))
    ensures ReadValue("{" + rest) == Some((ObjTree(fields), x))
  {
    var t := "{" + rest;
    assert t[0] == '{' && t[1] == rest[0] && t[1..] == rest;
  }

  lemma {:induction false} EmptyReads(x: string)
    ensures ReadValue("[" + ("]" + x)) == Some((ArrTree([]), x))
    ensures ReadValue("{" + ("}" + x)) == Some((ObjTree(map[]), x))
  {
    var t, u := "[" + ("]" + x), "{" + ("}" + x);
    assert t[0] == '[' && t[1] == ']' && t[2..] == x;
    assert u[0] == '{' && u[1] == '}' && u[2..] == x;
  }

  lemma {:induction false} ElementsRead(before: (string, string) -> bool, v: Json, a: seq<Json>, x: string)
    requires Proper(v) && v.Arr? && Stops(x) && forall i | i in a :: i in v.items
    ensures a != [] ==> ReadItems(Closing(Elements(before, v, a), ']', x)) == Some((ElementMeanings(v, a), x))
    decreases v, 0, |a|
  {
    if a != [] {
      var rest := After(Elements(before, v, a[1..]), ']', x);
      ClosedElements(before, v, a, x);
      assert a[0] in v.items;
      ValueReads(before, a[0], rest);
      ElementsRead(before, v, a[1..], x);
      if a[1..] == [] {
        assert rest[1..] == x;
        assert ElementMeanings(v, a) == [Meaning(a[0])];
      } else {
        assert rest[1..] == Closing(Elements(before, v, a[1..]), ']', x);
      }
    }
  }

  lemma {:induction false} MembersRead(before: (string, string) -> bool, v: Json, a: seq<Field<Json>>, x: string)
    requires Proper(v) && v.Obj? && Stops(x) && DistinctNames(a) && forall f | f in a :: f in v.fields
    ensures a != [] ==> ReadMembers(Closing(Members(before, v, a), '}', x)) == Some((FieldMeanings(v, a), x))
    decreases v, 0, |a|
  {
    if a != [] {
      var rest, value := After(Members(before, v, a[1..]), '}', x), Written(before, a[0].value);
      ClosedMembers(before, v, a, x);
      assert a[0] in v.fields;
      QuotedIs(a[0].name, ":" + (value + rest));
      ValueReads(before, a[0].value, rest);
      DistinctTail(a);
      MeaningsAt(v, a[1..]);
      MembersRead(before, v, a[1..], x);
      MemberReads(a[0].name, value, rest, Meaning(a[0].value));
      var texts := Members(before, v, a[1..]);
      if a[1..] == [] {
        LastMember(a[0].name, Meaning(a[0].value), x);
        assert FieldMeanings(v, a) == map[a[0].name := Meaning(a[0].value)];
      } else {
        MoreMembers(a[0].name, Meaning(a[0].value), texts, FieldMeanings(v, a[1..]), x);
      }
    }
  }

  lemma {:induction false} LastMember(name: string, value: Tree, x: string)
    ensures AfterMember(name, value, After([], '}', x)) == Some((map[name := value], x))
  {
    assert ("}" + x)[1..] == x;
  }

  lemma {:induction false} MoreMembers(name: string, value: Tree, texts: seq<string>, fields: map<string, Tree>,
                                       x: string)
    requires texts != [] && ReadMembers(Closing(texts, '}', x)) == Some((fields, x)) && name !in fields
    ensures AfterMember(name, value, After(texts, '}', x)) == Some((fields[name := value], x))
  {
    assert After(texts, '}', x)[1..] == Closing(texts, '}', x);
  }

  /** What reading members does with what follows the first of them. */
  function AfterMember(name: string, value: Tree, rest: string): Option<(map<string, Tree>, string)> {
    if rest == "" then None
    else if rest[0] == '}' then Some((map[name := value], rest[1..]))
    else if rest[0] != ',' then None
    else match ReadMembers(rest[1..])
    case None => None
    case Some((fields, after)) => Some((if name in fields then fields else fields[name := value], after))
  }

  lemma {:induction false} MemberReads(name: string, value: string, rest: string, meaning: Tree)
    requires ReadValue(value + rest) == Some((meaning, rest))
    ensures ReadMembers("\"" + Ending(name, ":" + (value + rest))) == AfterMember(name, meaning, rest)
  {
    var colon := ":" + (value + rest);
    StringReads(name, colon);
    var t := "\"" + Ending(name, colon);
    assert t[1..] == Ending(name, colon) && colon[1..] == value + rest;
  }

  /** The canonical text of a value, read as JSON, means the value. */
  lemma {:induction false} CanonicalReads(before: (string, string) -> bool, v: Json)
    requires Proper(v)
    ensures CanonicalValue(before, v).Ok?
    ensures ReadValue(CanonicalValue(before, v).value) == Some((Meaning(v), ""))
  {
    ProperIsJson(v);
    ValueReads(before, v, "");
    assert Written(before, v) + "" == Written(before, v);
  }

  lemma {:induction false} ProperIsJson(v: Json)
    requires Proper(v)
    ensures IsJson(v)
  {
    match v {
      case Arr(items) => forall i | i in items ensures IsJson(i) { ProperIsJson(i); }
      case Obj(fields) => forall f | f in fields ensures IsJson(f.value) { ProperIsJson(f.value); }
      case _ =>
    }
  }
}
