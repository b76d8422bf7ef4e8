/** JSON values and their text; the text determines the value, object key order included. */
module Json {
  import opened Text

  predicate IsNumberText(s: string) {
    && s != "" && (IsDigit(s[0]) || s[0] == '-')
    && forall i :: 0 <= i < |s| ==> IsDigit(s[i]) || s[i] in "+-.e"
  }

  /** A number as it is printed; two numbers are equal when they print alike. */
  type NumberText = s: string | IsNumberText(s) witness "0"

  datatype Value =
    | Null
    | Boolean(b: bool)
    | Number(printed: NumberText)
    | Str(s: string)
    | Arr(items: seq<Value>)
    | Obj(fields: seq<Field>)

  datatype Field = Field(key: string, value: Value)

  // ---- strings ----

  function HexDigit(n: nat): char
    requires n < 16
  {
    if n < 10 then '0' + n as char else 'a' + (n - 10) as char
  }

  /** One character of a quoted string. */
  function Escaped(c: char): string {
    if c == '"' then "\\\""
    else if c == '\\' then "\\\\"
    else if c == '\n' then "\\n"
    else if c == '\r' then "\\r"
    else if c == '\t' then "\\t"
    else if c == '\U{8}' then "\\b"
    else if c == '\U{C}' then "\\f"
    else if c < ' ' then "\\u00" + [HexDigit(c as nat / 16), HexDigit(c as nat % 16)]
    else [c]
  }

  function EscapedAll(s: string): string {
    if s == "" then "" else Escaped(s[0]) + EscapedAll(s[1..])
  }

  function Quote(s: string): string { "\"" + EscapedAll(s) + "\"" }

  predicate Short(c: char) { c in "\"\\\n\r\t\U{8}\U{C}" }

  /** The letter after the backslash. */
  function Letter(c: char): char
    requires Short(c) || c < ' '
  {
    if c == '"' then '"'
    else if c == '\\' then '\\'
    else if c == '\n' then 'n'
    else if c == '\r' then 'r'
    else if c == '\t' then 't'
    else if c == '\U{8}' then 'b'
    else if c == '\U{C}' then 'f'
    else 'u'
  }

  lemma EscapedShape(c: char)
    ensures !Short(c) && c >= ' ' ==> Escaped(c) == [c] && c != '\\' && c != '"'
    ensures Short(c) ==> Escaped(c) == ['\\', Letter(c)]
    ensures !Short(c) && c < ' ' ==>
              Escaped(c) == ['\\', 'u', '0', '0', HexDigit(c as nat / 16), HexDigit(c as nat % 16)] && Letter(c) == 'u'
  {
  }

  lemma LettersDiffer(c: char, d: char)
    requires (Short(c) || c < ' ') && (Short(d) || d < ' ') && Letter(c) == Letter(d)
    ensures Short(c) <==> Short(d)
    ensures Short(c) ==> c == d
  {
  }

  lemma HexInjective(m: nat, n: nat)
    requires m < 16 && n < 16 && HexDigit(m) == HexDigit(n)
    ensures m == n
  {
  }

  /** Escaped characters are read back uniquely. */
  lemma EscapedSplits(c: char, x: string, d: char, y: string)
    requires Escaped(c) + x == Escaped(d) + y
    ensures c == d && x == y
  {
    hide Escaped, Letter, HexDigit, Short;
    EscapedShape(c);
    EscapedShape(d);
    var s := Escaped(c) + x;
    assert s[0] == Escaped(c)[0] == Escaped(d)[0];
    if Short(c) || c < ' ' {
      assert s[1] == Escaped(c)[1] == Letter(c);
      assert s[1] == Escaped(d)[1] == Letter(d);
      LettersDiffer(c, d);
      if !Short(c) {
        assert s[4] == Escaped(c)[4] && s[4] == Escaped(d)[4] && s[5] == Escaped(c)[5] && s[5] == Escaped(d)[5];
        HexInjective(c as nat / 16, d as nat / 16);
        HexInjective(c as nat % 16, d as nat % 16);
      }
    }
    assert c == d;
    assert x == s[|Escaped(c)|..] && y == s[|Escaped(d)|..];
  }

  lemma EscapedStarts(c: char)
    ensures Escaped(c) != "" && Escaped(c)[0] != '"'
  {
  }

  lemma {:induction false} StringSplits(s: string, x: string, t: string, y: string)
    requires EscapedAll(s) + "\"" + x == EscapedAll(t) + "\"" + y
    ensures s == t && x == y
    decreases |s|
  {
    hide Escaped;
    var whole := EscapedAll(s) + "\"" + x;
    if s != "" {
      EscapedStarts(s[0]);
      assert whole[0] == Escaped(s[0])[0];
    }
    if t != "" {
      EscapedStarts(t[0]);
      assert whole[0] == Escaped(t[0])[0];
    }
    if s != "" && t != "" {
      assert whole == Escaped(s[0]) + (EscapedAll(s[1..]) + "\"" + x)
          == Escaped(t[0]) + (EscapedAll(t[1..]) + "\"" + y);
      EscapedSplits(s[0], EscapedAll(s[1..]) + "\"" + x, t[0], EscapedAll(t[1..]) + "\"" + y);
      StringSplits(s[1..], x, t[1..], y);
      assert s == [s[0]] + s[1..] && t == [t[0]] + t[1..];
    } else {
      assert s == "" && t == "";
      assert x == whole[1..] && y == whole[1..];
    }
  }

  lemma QuoteSplits(s: string, x: string, t: string, y: string)
    requires Quote(s) + x == Quote(t) + y
    ensures s == t && x == y
  {
    hide EscapedAll;
    assert Quote(s) + x == "\"" + (EscapedAll(s) + "\"" + x);
    assert Quote(t) + y == "\"" + (EscapedAll(t) + "\"" + y);
    assert EscapedAll(s) + "\"" + x == (Quote(s) + x)[1..] == (Quote(t) + y)[1..] == EscapedAll(t) + "\"" + y;
    StringSplits(s, x, t, y);
  }

  // ---- values ----

  /** `JSON.stringify(value)`. */
  function Stringify(v: Value): string
    decreases v
  {
    match v
    case Null => "null"
    case Boolean(b) => if b then "true" else "false"
    case Number(printed) => printed
    case Str(s) => Quote(s)
    case Arr(items) => "[" + Items(items)
    case Obj(fields) => "{" + Fields(fields)
  }

  /** The items of an array up to its closing bracket. */
  function Items(items: seq<Value>): string
    decreases items, 1
  {
    if items == [] then "]" else Stringify(items[0]) + MoreItems(items[1..])
  }

  function Fields(fields: seq<Field>): string
    decreases fields, 1
  {
    if fields == [] then "}" else StringifyField(fields[0]) + MoreFields(fields[1..])
  }

  function MoreItems(items: seq<Value>): string
    decreases items
  {
    if items == [] then "]" else "," + Stringify(items[0]) + MoreItems(items[1..])
  }

  function StringifyField(f: Field): string
    decreases f
  {
    Quote(f.key) + ":" + Stringify(f.value)
  }

  function MoreFields(fields: seq<Field>): string
    decreases fields
  {
    if fields == [] then "}" else "," + StringifyField(fields[0]) + MoreFields(fields[1..])
  }

  // ---- the text determines the value ----

  /** What may follow a value inside a larger one, or nothing. */
  predicate Stops(x: string) { x == "" || x[0] in ",]}" }

  lemma NumberEnds(a: NumberText, x: string)
    requires Stops(x)
    ensures forall i :: 0 <= i < |a| ==> (a + x)[i] !in ",]}"
    ensures |a| < |a + x| ==> (a + x)[|a|] in ",]}"
  {
    assert forall i :: 0 <= i < |a| ==> (a + x)[i] == a[i];
  }

  lemma NumberSplits(a: NumberText, x: string, b: NumberText, y: string)
    requires a + x == b + y && Stops(x) && Stops(y)
    ensures a == b && x == y
  {
    var s := a + x;
    NumberEnds(a, x);
    NumberEnds(b, y);
    assert |a| == |b|;
    assert a == s[..|a|] && b == s[..|b|] && x == s[|a|..] && y == s[|b|..];
  }

  /** The first character tells the kind of value. */
  function Kind(v: Value): char {
    match v
    case Null => 'n'
    case Boolean(b) => if b then 't' else 'f'
    case Number(_) => '0'
    case Str(_) => '"'
    case Arr(_) => '['
    case Obj(_) => '{'
  }

  lemma FirstCharacter(v: Value)
    ensures Stringify(v) != ""
    ensures !v.Number? ==> Stringify(v)[0] == Kind(v)
    ensures v.Number? ==> IsDigit(Stringify(v)[0]) || Stringify(v)[0] == '-'
  {
    hide EscapedAll;
    match v
    case Obj(fields) =>
    case _ =>
  }

  lemma SameKind(v: Value, x: string, w: Value, y: string)
    requires Stringify(v) + x == Stringify(w) + y
    ensures Kind(v) == Kind(w)
  {
    hide Stringify;
    FirstCharacter(v);
    FirstCharacter(w);
    assert (Stringify(v) + x)[0] == Stringify(v)[0] && (Stringify(w) + y)[0] == Stringify(w)[0];
  }

  /** A value is read back uniquely from the front of a text. */
  lemma {:induction false} ValueSplits(v: Value, x: string, w: Value, y: string)
    requires Stringify(v) + x == Stringify(w) + y && Stops(x) && Stops(y)
    ensures v == w && x == y
    decreases v, 1
  {
    hide Quote, IsNumberText;
    SameKind(v, x, w, y);
    match v
    case Null => SameText(Stringify(v), x, y);
    case Boolean(_) => SameText(Stringify(v), x, y);
    case Number(_) => NumberSplits(v.printed, x, w.printed, y);
    case Str(_) => QuoteSplits(v.s, x, w.s, y);
    case Arr(_) => ArraySplits(v, x, w, y);
    case Obj(_) => ObjectSplits(v, x, w, y);
  }

  lemma SameText(s: string, x: string, y: string)
    requires s + x == s + y
    ensures x == y
  {
    assert x == (s + x)[|s|..] && y == (s + y)[|s|..];
  }

  lemma {:induction false} ArraySplits(v: Value, x: string, w: Value, y: string)
    requires v.Arr? && w.Arr? && Stringify(v) + x == Stringify(w) + y
    ensures v == w && x == y
    decreases v, 0
  {
    hide Items;
    var a, b := v.items, w.items;
    assert Stringify(v) + x == "[" + (Items(a) + x) && Stringify(w) + y == "[" + (Items(b) + y);
    SameText("[", Items(a) + x, Items(b) + y);
    EmptyTogether(a, x, b, y);
    if a == [] {
      assert Items(a) == "]" == Items(b) by { NoItems(); }
      SameText("]", x, y);
    } else {
      ItemsOpen(a, x);
      ItemsOpen(b, y);
      ValueSplits(a[0], MoreItems(a[1..]) + x, b[0], MoreItems(b[1..]) + y);
      ItemsSplit(a[1..], x, b[1..], y);
      assert a == [a[0]] + a[1..] && b == [b[0]] + b[1..];
    }
  }

  lemma NoItems()
    ensures Items([]) == "]" && Fields([]) == "}"
  {
  }

  /** A list is empty exactly when its text starts with the closing bracket. */
  lemma ItemsHead(a: seq<Value>, x: string)
    ensures Items(a) + x != "" && ((Items(a) + x)[0] == ']' <==> a == [])
  {
    hide Stringify;
    if a != [] {
      FirstCharacter(a[0]);
      assert (Items(a) + x)[0] == Stringify(a[0])[0];
    }
  }

  lemma EmptyTogether(a: seq<Value>, x: string, b: seq<Value>, y: string)
    requires Items(a) + x == Items(b) + y
    ensures a == [] <==> b == []
  {
    hide Items;
    ItemsHead(a, x);
    ItemsHead(b, y);
  }

  /** Text and follow-up of the first item. */
  lemma ItemsOpen(a: seq<Value>, x: string)
    requires a != []
    ensures Items(a) + x == Stringify(a[0]) + (MoreItems(a[1..]) + x) && Stops(MoreItems(a[1..]) + x)
  {
    hide Stringify;
  }

  lemma MoreOpen(a: seq<Value>, x: string)
    ensures MoreItems(a) + x != "" && ((MoreItems(a) + x)[0] == ']' <==> a == [])
    ensures a == [] ==> MoreItems(a) + x == "]" + x
    ensures a != [] ==> MoreItems(a) + x == "," + (Stringify(a[0]) + (MoreItems(a[1..]) + x))
                        && Stops(MoreItems(a[1..]) + x)
  {
    hide Stringify;
  }

  lemma {:induction false} ItemsSplit(a: seq<Value>, x: string, b: seq<Value>, y: string)
    requires MoreItems(a) + x == MoreItems(b) + y
    ensures a == b && x == y
    decreases a
  {
    hide MoreItems, Stringify;
    MoreOpen(a, x);
    MoreOpen(b, y);
    if a == [] {
      SameText("]", x, y);
    } else {
      SameText(",", Stringify(a[0]) + (MoreItems(a[1..]) + x), Stringify(b[0]) + (MoreItems(b[1..]) + y));
      ValueSplits(a[0], MoreItems(a[1..]) + x, b[0], MoreItems(b[1..]) + y);
      ItemsSplit(a[1..], x, b[1..], y);
      assert a == [a[0]] + a[1..] && b == [b[0]] + b[1..];
    }
  }

  lemma {:induction false} FieldSplits(f: Field, x: string, g: Field, y: string)
    requires StringifyField(f) + x == StringifyField(g) + y && Stops(x) && Stops(y)
    ensures f == g && x == y
    decreases f
  {
    hide Quote, Stringify;
    assert StringifyField(f) + x == Quote(f.key) + (":" + (Stringify(f.value) + x));
    assert StringifyField(g) + y == Quote(g.key) + (":" + (Stringify(g.value) + y));
    QuoteSplits(f.key, ":" + (Stringify(f.value) + x), g.key, ":" + (Stringify(g.value) + y));
    SameText(":", Stringify(f.value) + x, Stringify(g.value) + y);
    ValueSplits(f.value, x, g.value, y);
  }

  lemma {:induction false} ObjectSplits(v: Value, x: string, w: Value, y: string)
    requires v.Obj? && w.Obj? && Stringify(v) + x == Stringify(w) + y
    ensures v == w && x == y
    decreases v, 0
  {
    hide Fields;
    var a, b := v.fields, w.fields;
    assert Stringify(v) + x == "{" + (Fields(a) + x) && Stringify(w) + y == "{" + (Fields(b) + y);
    SameText("{", Fields(a) + x, Fields(b) + y);
    FieldsHead(a, x);
    FieldsHead(b, y);
    if a == [] {
      NoItems();
      SameText("}", x, y);
    } else {
      FieldSplits(a[0], MoreFields(a[1..]) + x, b[0], MoreFields(b[1..]) + y);
      FieldsSplit(a[1..], x, b[1..], y);
      assert a == [a[0]] + a[1..] && b == [b[0]] + b[1..];
    }
  }

  lemma FieldsHead(a: seq<Field>, x: string)
    ensures Fields(a) + x != "" && ((Fields(a) + x)[0] == '}' <==> a == [])
    ensures a != [] ==> Fields(a) + x == StringifyField(a[0]) + (MoreFields(a[1..]) + x)
                        && Stops(MoreFields(a[1..]) + x)
  {
    hide Stringify, EscapedAll;
  }

  lemma MoreFieldsOpen(a: seq<Field>, x: string)
    ensures MoreFields(a) + x != "" && ((MoreFields(a) + x)[0] == '}' <==> a == [])
    ensures a == [] ==> MoreFields(a) + x == "}" + x
    ensures a != [] ==>
              MoreFields(a) + x == "," + (StringifyField(a[0]) + (MoreFields(a[1..]) + x))
              && Stops(MoreFields(a[1..]) + x)
  {
    hide StringifyField;
  }

  lemma {:induction false} FieldsSplit(a: seq<Field>, x: string, b: seq<Field>, y: string)
    requires MoreFields(a) + x == MoreFields(b) + y
    ensures a == b && x == y
    decreases a
  {
    hide MoreFields, StringifyField;
    MoreFieldsOpen(a, x);
    MoreFieldsOpen(b, y);
    if a == [] {
      SameText("}", x, y);
    } else {
      SameText(",", StringifyField(a[0]) + (MoreFields(a[1..]) + x), StringifyField(b[0]) + (MoreFields(b[1..]) + y));
      FieldSplits(a[0], MoreFields(a[1..]) + x, b[0], MoreFields(b[1..]) + y);
      FieldsSplit(a[1..], x, b[1..], y);
      assert a == [a[0]] + a[1..] && b == [b[0]] + b[1..];
    }
  }

  /** Equal texts come from equal values. */
  lemma StringifyInjective(v: Value, w: Value)
    requires Stringify(v) == Stringify(w)
    ensures v == w
  {
    assert Stringify(v) + "" == Stringify(v) && Stringify(w) + "" == Stringify(w);
    ValueSplits(v, "", w, "");
  }
}
