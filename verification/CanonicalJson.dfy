/**
 The canonical JSON text that the source hashes: `json.dumps(value, sort_keys=True, separators=(",", ":"))`,
 strings as in section 7 of RFC 8259. The text determines the value, so a digest of the text identifies it.
 With `ascii` false the text is the one of `ensure_ascii=False`.
 */
module CanonicalJson {

  datatype Field = Field(key: string, value: Json)

  /** A dictionary is its list of items in key order. Floating-point numbers are not part of this model. */
  datatype Json =
    | Null
    | Bool(b: bool)
    | Num(n: int)
    | Str(s: string)
    | Arr(items: seq<Json>)
    | Obj(fields: seq<Field>)

  /** The object has exactly one item under the key, and it is this value. */
  predicate Holds(j: Json, key: string, value: Json) {
    && j.Obj? && Field(key, value) in j.fields
    && forall i :: 0 <= i < |j.fields| && j.fields[i].key == key ==> j.fields[i].value == value
  }

  // ---------- text ----------

  function HexDigit(d: nat): char
    requires d < 16
  {
    if d < 10 then '0' + (d as char) else 'a' + ((d - 10) as char)
  }

  lemma HexDigitIs(d: nat)
    requires d < 16
    ensures HexDigit(d) == "0123456789abcdef"[d]
  {
  }

  function Hex4(n: nat): (h: string)
    requires n < 0x10000
    ensures |h| == 4
  {
    [HexDigit(n / 16 / 16 / 16), HexDigit(n / 16 / 16 % 16), HexDigit(n / 16 % 16), HexDigit(n % 16)]
  }

  function Unicode(n: nat): string
    requires n < 0x10000
  {
    "\\u" + Hex4(n)
  }

  /** One character inside a JSON string: escaped if a quote, a backslash, a control, or not printable ASCII. */
  function Esc(ascii: bool, c: char): (e: string)
    ensures |e| >= 1 && e[0] != '"'
  {
    if c == '"' then "\\\""
    else if c == '\\' then "\\\\"
    else if c == '\n' then "\\n"
    else if c == '\r' then "\\r"
    else if c == '\t' then "\\t"
    else if c == '\U{0C}' then "\\f"
    else if c == '\U{08}' then "\\b"
    else if c < ' ' then Unicode(c as nat)
    else if c <= '~' || !ascii then [c]
    else if (c as nat) < 0x10000 then Unicode(c as nat)
    else
      var v := c as nat - 0x10000;
      Unicode(0xD800 + v / 1024) + Unicode(0xDC00 + v % 1024)
  }

  function Body(ascii: bool, s: string): string {
    if s == "" then "" else Esc(ascii, s[0]) + Body(ascii, s[1..])
  }

  function Quote(ascii: bool, s: string): string {
    "\"" + Body(ascii, s) + "\""
  }

  function Digits(n: nat): (t: string)
    ensures |t| >= 1
  {
    if n < 10 then [HexDigit(n)] else Digits(n / 10) + [HexDigit(n % 10)]
  }

  function Number(n: int): string {
    if n < 0 then "-" + Digits(-n) else Digits(n)
  }

  predicate Decimal(t: string) {
    forall i :: 0 <= i < |t| ==> '0' <= t[i] <= '9'
  }

  /** The number a decimal text denotes. */
  function Read(t: string): nat
    requires Decimal(t)
  {
    if t == "" then 0 else 10 * Read(t[..|t| - 1]) + (t[|t| - 1] - '0') as nat
  }

  /** The digits of a number denote it, and start with a zero only for zero. */
  lemma {:induction false} DigitsDenote(n: nat)
    ensures Decimal(Digits(n)) && Read(Digits(n)) == n && (Digits(n)[0] == '0' <==> n == 0)
  {
    var t := Digits(n);
    if n >= 10 {
      DigitsDenote(n / 10);
      var front := Digits(n / 10);
      assert t[..|t| - 1] == front && t[|t| - 1] == HexDigit(n % 10) && t[0] == front[0];
    } else {
      assert t[..0] == "";
    }
  }

  /** A number is written by the digits of its size, after a sign exactly when it is negative. */
  lemma NumberDenotes(n: int)
    ensures var t := Number(n);
            if n < 0 then t[0] == '-' && Decimal(t[1..]) && Read(t[1..]) == -n && t[1] != '0'
            else Decimal(t) && Read(t) == n && (t[0] == '0' <==> n == 0)
  {
    DigitsDenote(if n < 0 then -n else n);
    if n < 0 {
      assert Number(n)[1..] == Digits(-n);
    }
  }

  function Dump(ascii: bool, j: Json): string
    decreases j, 1
  {
    match j
    case Null => "null"
    case Bool(b) => if b then "true" else "false"
    case Num(n) => Number(n)
    case Str(s) => Quote(ascii, s)
    case Arr(items) => "[" + DumpItems(ascii, items) + "]"
    case Obj(fields) => "{" + DumpFields(ascii, fields) + "}"
  }

  function DumpItems(ascii: bool, items: seq<Json>): string
    decreases items, 0
  {
    if items == [] then ""
    else Dump(ascii, items[0]) + (if |items| == 1 then "" else "," + DumpItems(ascii, items[1..]))
  }

  function DumpField(ascii: bool, f: Field): string
    decreases f, 0
  {
    Quote(ascii, f.key) + ":" + Dump(ascii, f.value)
  }

  function DumpFields(ascii: bool, fields: seq<Field>): string
    decreases fields, 0
  {
    if fields == [] then ""
    else DumpField(ascii, fields[0]) + (if |fields| == 1 then "" else "," + DumpFields(ascii, fields[1..]))
  }

  // ---------- the text determines the value ----------

  lemma Cancel(a: string, x: string, b: string, y: string)
    requires a + x == b + y && |a| == |b|
    ensures a == b && x == y
  {
    assert a == (a + x)[..|a|] && b == (b + y)[..|b|];
    assert x == (a + x)[|a|..] && y == (b + y)[|b|..];
  }

  lemma HexDigitsDiffer(d: nat, e: nat)
    requires d < 16 && e < 16 && HexDigit(d) == HexDigit(e)
    ensures d == e
  {
  }

  lemma SameQuotient(n: nat, m: nat)
    requires n / 16 == m / 16 && n % 16 == m % 16
    ensures n == m
  {
  }

  lemma Hex4Differs(n: nat, m: nat)
    requires n < 0x10000 && m < 0x10000 && Hex4(n) == Hex4(m)
    ensures n == m
  {
    hide HexDigit;
    var a, b := Hex4(n), Hex4(m);
    assert a[0] == b[0] && a[1] == b[1] && a[2] == b[2] && a[3] == b[3];
    HexDigitsDiffer(n / 16 / 16 / 16, m / 16 / 16 / 16);
    HexDigitsDiffer(n / 16 / 16 % 16, m / 16 / 16 % 16);
    HexDigitsDiffer(n / 16 % 16, m / 16 % 16);
    HexDigitsDiffer(n % 16, m % 16);
    SameQuotient(n / 16 / 16, m / 16 / 16);
    SameQuotient(n / 16, m / 16);
    SameQuotient(n, m);
  }

  lemma UnicodePrefix(n: nat, m: nat, x: string, y: string)
    requires n < 0x10000 && m < 0x10000
    requires Unicode(n) + x == Unicode(m) + y
    ensures n == m && x == y
  {
    Cancel(Unicode(n), x, Unicode(m), y);
    assert Unicode(n)[2..] == Hex4(n) && Unicode(m)[2..] == Hex4(m);
    Hex4Differs(n, m);
  }

  /** The escapes of `ensure_ascii=True` that are written with \u. */
  predicate Coded(c: char) {
    !(' ' <= c <= '~') && c != '\n' && c != '\r' && c != '\t' && c != '\U{0C}' && c != '\U{08}'
  }

  /** The code unit of the first \u escape of a character. */
  function FirstUnit(c: char): (n: nat)
    ensures n < 0x10000
  {
    if (c as nat) < 0x10000 then c as nat else 0xD800 + (c as nat - 0x10000) / 1024
  }

  lemma EscPrefix(c: char, d: char, x: string, y: string)
    requires Esc(true, c) + x == Esc(true, d) + y
    ensures c == d && x == y
  {
    var ec, ed := Esc(true, c), Esc(true, d);
    assert ec[0] == (ec + x)[0] == (ed + y)[0] == ed[0];
    if Coded(c) && Coded(d) {
      CodedPrefix(c, d, x, y);
    } else if |ec| >= 2 && |ed| >= 2 {
      assert ec[1] == (ec + x)[1] == (ed + y)[1] == ed[1];
      assert c == d;
      Cancel(ec, x, ed, y);
    } else {
      Cancel(ec, x, ed, y);
    }
  }

  /** The second code unit of a character outside the basic plane, as text. */
  function Tail(c: char): string {
    if c as nat < 0x10000 then "" else Unicode(0xDC00 + (c as nat - 0x10000) % 1024)
  }

  lemma CodedText(c: char, x: string)
    requires Coded(c) && c != '"' && c != '\\'
    ensures Esc(true, c) + x == Unicode(FirstUnit(c)) + (Tail(c) + x)
  {
  }

  lemma CodedPrefix(c: char, d: char, x: string, y: string)
    requires Coded(c) && Coded(d) && Esc(true, c) + x == Esc(true, d) + y
    ensures c == d && x == y
  {
    hide Unicode, Esc;
    CodedText(c, x);
    CodedText(d, y);
    UnicodePrefix(FirstUnit(c), FirstUnit(d), Tail(c) + x, Tail(d) + y);
    assert c as nat < 0x10000 <==> d as nat < 0x10000;
    if c as nat < 0x10000 {
      assert "" + x == x && "" + y == y;
    } else {
      var n, m := c as nat - 0x10000, d as nat - 0x10000;
      UnicodePrefix(0xDC00 + n % 1024, 0xDC00 + m % 1024, x, y);
      assert n == n / 1024 * 1024 + n % 1024 && m == m / 1024 * 1024 + m % 1024;
    }
  }

  /** A quote ends the body of a string, and nothing inside the body looks like one. */
  lemma BodyStart(s: string, x: string)
    ensures (Body(true, s) + "\"" + x)[0] == '"' <==> s == ""
    ensures s == "" ==> (Body(true, s) + "\"" + x)[1..] == x
    ensures s != "" ==> Body(true, s) + "\"" + x == Esc(true, s[0]) + (Body(true, s[1..]) + "\"" + x)
  {
    hide Esc;
  }

  lemma {:induction false} BodyPrefix(s: string, t: string, x: string, y: string)
    requires Body(true, s) + "\"" + x == Body(true, t) + "\"" + y
    ensures s == t && x == y
  {
    hide Esc, Body;
    BodyStart(s, x);
    BodyStart(t, y);
    if s != "" {
      EscPrefix(s[0], t[0], Body(true, s[1..]) + "\"" + x, Body(true, t[1..]) + "\"" + y);
      BodyPrefix(s[1..], t[1..], x, y);
      assert s == [s[0]] + s[1..] && t == [t[0]] + t[1..];
    }
  }

  lemma QuotePrefix(s: string, t: string, x: string, y: string)
    requires Quote(true, s) + x == Quote(true, t) + y
    ensures s == t && x == y
  {
    hide Esc, Body;
    var left, right := Quote(true, s) + x, Quote(true, t) + y;
    assert left[1..] == Body(true, s) + "\"" + x;
    assert right[1..] == Body(true, t) + "\"" + y;
    BodyPrefix(s, t, x, y);
  }

  predicate NumberChar(c: char) {
    '0' <= c <= '9' || c == '-'
  }

  /** What follows a value inside a text: nothing, or a separator or a closing bracket. */
  predicate Delimited(x: string) {
    x == "" || x[0] == ',' || x[0] == ']' || x[0] == '}'
  }

  lemma {:induction false} DigitsChars(n: nat)
    ensures forall i :: 0 <= i < |Digits(n)| ==> '0' <= Digits(n)[i] <= '9'
  {
    if n >= 10 {
      DigitsChars(n / 10);
    }
  }

  lemma {:induction false} DigitsDiffer(n: nat, m: nat)
    requires Digits(n) == Digits(m)
    ensures n == m
  {
    hide HexDigit;
    var a, b := Digits(n), Digits(m);
    assert n < 10 <==> |a| == 1;
    assert m < 10 <==> |b| == 1;
    assert a[|a| - 1] == b[|b| - 1];
    HexDigitsDiffer(n % 10, m % 10);
    if n >= 10 {
      assert a[..|a| - 1] == Digits(n / 10) && b[..|b| - 1] == Digits(m / 10);
      DigitsDiffer(n / 10, m / 10);
    }
  }

  lemma NumberChars(n: int)
    ensures |Number(n)| >= 1 && forall i :: 0 <= i < |Number(n)| ==> NumberChar(Number(n)[i])
  {
    DigitsChars(if n < 0 then -n else n);
  }

  /** The length of the longest number a text begins with. */
  function NumberLength(t: string): nat {
    if t == "" || !NumberChar(t[0]) then 0 else 1 + NumberLength(t[1..])
  }

  lemma {:induction false} NumberEnds(a: string, x: string)
    requires (forall i :: 0 <= i < |a| ==> NumberChar(a[i])) && Delimited(x)
    ensures NumberLength(a + x) == |a|
  {
    if a == "" {
      assert a + x == x;
    } else {
      assert (a + x)[1..] == a[1..] + x;
      NumberEnds(a[1..], x);
    }
  }

  lemma NumberPrefix(n: int, m: int, x: string, y: string)
    requires Number(n) + x == Number(m) + y && Delimited(x) && Delimited(y)
    ensures n == m && x == y
  {
    hide Digits;
    var a, b := Number(n), Number(m);
    NumberChars(n);
    NumberChars(m);
    NumberEnds(a, x);
    NumberEnds(b, y);
    Cancel(a, x, b, y);
    DigitsChars(if n < 0 then -n else n);
    DigitsChars(if m < 0 then -m else m);
    assert a[0] == b[0];
    assert n < 0 ==> a[1..] == Digits(-n);
    assert m < 0 ==> b[1..] == Digits(-m);
    DigitsDiffer(if n < 0 then -n else n, if m < 0 then -m else m);
  }

  /** The first character of a value's text, which tells its kind. */
  lemma FirstChar(j: Json)
    ensures var t := Dump(true, j);
            && |t| >= 1 && t[0] != ']'
            && match j
               case Null => t[0] == 'n'
               case Bool(b) => t[0] == if b then 't' else 'f'
               case Num(_) => NumberChar(t[0])
               case Str(_) => t[0] == '"'
               case Arr(_) => t[0] == '['
               case Obj(_) => t[0] == '{'
  {
    hide Esc, Body, Digits;
    if j.Num? {
      NumberChars(j.n);
    }
  }

  lemma Unbracket(open: string, text: string, close: string, x: string)
    requires |open| == 1
    ensures (open + text + close + x)[1..] == text + close + x
  {
  }

  lemma {:induction false} DumpPrefix(a: Json, b: Json, x: string, y: string)
    requires Dump(true, a) + x == Dump(true, b) + y && Delimited(x) && Delimited(y)
    ensures a == b && x == y
    decreases a, 1
  {
    hide Esc, Body, Quote, Number, Digits, DumpItems, DumpFields;
    FirstChar(a);
    FirstChar(b);
    var left, right := Dump(true, a) + x, Dump(true, b) + y;
    assert left[0] == Dump(true, a)[0] && right[0] == Dump(true, b)[0];
    match a
    case Num(n) => NumberPrefix(n, b.n, x, y);
    case Str(s) => QuotePrefix(s, b.s, x, y);
    case Arr(items) =>
      Unbracket("[", DumpItems(true, items), "]", x);
      Unbracket("[", DumpItems(true, b.items), "]", y);
      ItemsPrefix(items, b.items, x, y);
    case Obj(fields) =>
      Unbracket("{", DumpFields(true, fields), "}", x);
      Unbracket("{", DumpFields(true, b.fields), "}", y);
      FieldsPrefix(fields, b.fields, x, y);
    case _ => Cancel(Dump(true, a), x, Dump(true, b), y);
  }

  /** The text of an array after its first item, up to and beyond the closing bracket. */
  function AfterItem(items: seq<Json>, x: string): string
    requires items != []
  {
    if |items| == 1 then "]" + x else "," + (DumpItems(true, items[1..]) + "]" + x)
  }

  lemma Regroup(a: string, b: string, c: string, x: string)
    ensures a + b + c + x == a + (b + c + x)
  {
  }

  lemma FieldStart(f: Field)
    ensures |DumpField(true, f)| >= 1 && DumpField(true, f)[0] == '"'
  {
  }

  lemma ItemsUnfold(items: seq<Json>)
    ensures items == [] ==> DumpItems(true, items) == ""
    ensures items != [] ==> DumpItems(true, items)
                            == Dump(true, items[0]) + (if |items| == 1 then "" else "," + DumpItems(true, items[1..]))
  {
  }

  lemma ItemsText(items: seq<Json>, x: string)
    ensures (DumpItems(true, items) + "]" + x)[0] == ']' <==> items == []
    ensures items == [] ==> (DumpItems(true, items) + "]" + x)[1..] == x
    ensures items != [] ==> DumpItems(true, items) + "]" + x == Dump(true, items[0]) + AfterItem(items, x)
  {
    hide Dump, DumpItems;
    ItemsUnfold(items);
    if items != [] {
      FirstChar(items[0]);
      var rest := if |items| == 1 then "" else "," + DumpItems(true, items[1..]);
      Regroup(Dump(true, items[0]), rest, "]", x);
      assert rest + "]" + x == AfterItem(items, x);
    }
  }

  lemma {:induction false} ItemsPrefix(a: seq<Json>, b: seq<Json>, x: string, y: string)
    requires DumpItems(true, a) + "]" + x == DumpItems(true, b) + "]" + y
    ensures a == b && x == y
    decreases a, 0
  {
    hide Dump, DumpItems;
    ItemsText(a, x);
    ItemsText(b, y);
    if a != [] {
      var moreA, moreB := AfterItem(a, x), AfterItem(b, y);
      DumpPrefix(a[0], b[0], moreA, moreB);
      assert moreA[0] == moreB[0] && moreA[1..] == moreB[1..];
      if |a| == 1 {
        assert moreA[1..] == x && moreB[1..] == y;
        assert a == [a[0]] && b == [b[0]];
      } else {
        ItemsPrefix(a[1..], b[1..], x, y);
        assert a == [a[0]] + a[1..] && b == [b[0]] + b[1..];
      }
    }
  }

  function AfterField(fields: seq<Field>, x: string): string
    requires fields != []
  {
    if |fields| == 1 then "}" + x else "," + (DumpFields(true, fields[1..]) + "}" + x)
  }

  lemma FieldsUnfold(fields: seq<Field>)
    ensures fields == [] ==> DumpFields(true, fields) == ""
    ensures fields != [] ==> DumpFields(true, fields)
                             == DumpField(true, fields[0]) + (if |fields| == 1 then "" else "," + DumpFields(true, fields[1..]))
  {
  }

  lemma FieldsText(fields: seq<Field>, x: string)
    ensures (DumpFields(true, fields) + "}" + x)[0] == '}' <==> fields == []
    ensures fields == [] ==> (DumpFields(true, fields) + "}" + x)[1..] == x
    ensures fields != [] ==> DumpFields(true, fields) + "}" + x == DumpField(true, fields[0]) + AfterField(fields, x)
  {
    hide DumpField, DumpFields;
    FieldsUnfold(fields);
    if fields != [] {
      FieldStart(fields[0]);
      var rest := if |fields| == 1 then "" else "," + DumpFields(true, fields[1..]);
      Regroup(DumpField(true, fields[0]), rest, "}", x);
      assert rest + "}" + x == AfterField(fields, x);
    }
  }

  lemma {:induction false} FieldsPrefix(a: seq<Field>, b: seq<Field>, x: string, y: string)
    requires DumpFields(true, a) + "}" + x == DumpFields(true, b) + "}" + y
    ensures a == b && x == y
    decreases a, 0
  {
    hide DumpField, DumpFields;
    FieldsText(a, x);
    FieldsText(b, y);
    if a != [] {
      var moreA, moreB := AfterField(a, x), AfterField(b, y);
      FieldPrefix(a[0], b[0], moreA, moreB);
      assert moreA[0] == moreB[0] && moreA[1..] == moreB[1..];
      if |a| == 1 {
        assert moreA[1..] == x && moreB[1..] == y;
        assert a == [a[0]] && b == [b[0]];
      } else {
        FieldsPrefix(a[1..], b[1..], x, y);
        assert a == [a[0]] + a[1..] && b == [b[0]] + b[1..];
      }
    }
  }

  lemma {:induction false} FieldPrefix(f: Field, g: Field, x: string, y: string)
    requires DumpField(true, f) + x == DumpField(true, g) + y && Delimited(x) && Delimited(y)
    ensures f == g && x == y
    decreases f, 0
  {
    hide Quote, Dump;
    var restF, restG := ":" + Dump(true, f.value) + x, ":" + Dump(true, g.value) + y;
    assert DumpField(true, f) + x == Quote(true, f.key) + restF;
    assert DumpField(true, g) + y == Quote(true, g.key) + restG;
    QuotePrefix(f.key, g.key, restF, restG);
    assert restF[1..] == Dump(true, f.value) + x && restG[1..] == Dump(true, g.value) + y;
    DumpPrefix(f.value, g.value, x, y);
  }

  /** Two values with the same canonical text are the same value. */
  lemma TextIsInjective(a: Json, b: Json)
    requires Dump(true, a) == Dump(true, b)
    ensures a == b
  {
    assert Dump(true, a) + "" == Dump(true, b) + "";
    DumpPrefix(a, b, "", "");
  }

  // ---------- the two escaping modes ----------

  /** Every character is below DEL: exactly the strings on which the two modes agree. */
  predicate Plain(s: string) {
    forall i :: 0 <= i < |s| ==> s[i] <= '~'
  }

  predicate PlainJson(j: Json)
    decreases j
  {
    match j
    case Str(s) => Plain(s)
    case Arr(items) => forall i :: 0 <= i < |items| ==> PlainJson(items[i])
    case Obj(fields) => forall i :: 0 <= i < |fields| ==> Plain(fields[i].key) && PlainJson(fields[i].value)
    case _ => true
  }

  lemma PlainConcat(a: string, b: string)
    ensures Plain(a + b) <==> Plain(a) && Plain(b)
  {
    if Plain(a + b) {
      assert forall i :: 0 <= i < |a| ==> a[i] == (a + b)[i];
      assert forall i :: 0 <= i < |b| ==> b[i] == (a + b)[|a| + i];
    }
  }

  lemma UnitPlain(n: nat)
    requires n < 0x10000
    ensures Plain(Unicode(n))
  {
  }

  lemma EscModes(c: char)
    ensures Plain(Esc(true, c))
    ensures Plain(Esc(false, c)) <==> c <= '~'
    ensures c <= '~' ==> Esc(false, c) == Esc(true, c)
  {
    hide Hex4;
    if c > '~' {
      assert Esc(false, c) == [c];
    }
    UnitPlain(FirstUnit(c));
    UnitPlain(0xDC00 + (if c as nat < 0x10000 then 0 else (c as nat - 0x10000) % 1024));
  }

  lemma {:induction false} BodyModes(s: string)
    ensures Plain(Body(true, s))
    ensures Plain(Body(false, s)) <==> Plain(s)
    ensures Plain(s) ==> Body(true, s) == Body(false, s)
  {
    hide Esc;
    if s != "" {
      BodyModes(s[1..]);
      EscModes(s[0]);
      PlainConcat(Esc(true, s[0]), Body(true, s[1..]));
      PlainConcat(Esc(false, s[0]), Body(false, s[1..]));
      PlainConcat([s[0]], s[1..]);
      assert [s[0]] + s[1..] == s;
      assert Plain([s[0]]) <==> [s[0]][0] <= '~';
    }
  }

  lemma QuoteModes(s: string)
    ensures Plain(Quote(true, s))
    ensures Plain(Quote(false, s)) <==> Plain(s)
    ensures Plain(s) ==> Quote(true, s) == Quote(false, s)
  {
    BodyModes(s);
    PlainConcat("\"" + Body(true, s), "\"");
    PlainConcat("\"", Body(true, s));
    PlainConcat("\"" + Body(false, s), "\"");
    PlainConcat("\"", Body(false, s));
  }

  /** The ASCII text is plain; the other is plain exactly for plain values, and then they are the same text. */
  lemma {:induction false} DumpModes(j: Json)
    ensures Plain(Dump(true, j))
    ensures Plain(Dump(false, j)) <==> PlainJson(j)
    ensures PlainJson(j) ==> Dump(true, j) == Dump(false, j)
    decreases j, 1
  {
    match j
    case Num(n) => NumberChars(n);
    case Str(s) => QuoteModes(s);
    case Arr(items) =>
      ItemsModes(items);
      Bracket("[", DumpItems(true, items), "]");
      Bracket("[", DumpItems(false, items), "]");
    case Obj(fields) =>
      FieldsModes(fields);
      Bracket("{", DumpFields(true, fields), "}");
      Bracket("{", DumpFields(false, fields), "}");
    case _ =>
  }

  lemma Bracket(open: string, text: string, close: string)
    requires Plain(open) && Plain(close)
    ensures Plain(open + text + close) <==> Plain(text)
  {
    PlainConcat(open + text, close);
    PlainConcat(open, text);
  }

  lemma {:induction false} ItemsModes(items: seq<Json>)
    ensures Plain(DumpItems(true, items))
    ensures Plain(DumpItems(false, items)) <==> PlainJson(Arr(items))
    ensures PlainJson(Arr(items)) ==> DumpItems(true, items) == DumpItems(false, items)
    decreases items, 0
  {
    if items != [] {
      DumpModes(items[0]);
      ItemsModes(items[1..]);
      PlainMore(DumpItems(true, items[1..]), Dump(true, items[0]));
      PlainMore(DumpItems(false, items[1..]), Dump(false, items[0]));
      PlainConcat(Dump(true, items[0]), "");
      PlainConcat(Dump(false, items[0]), "");
      assert forall i :: 1 <= i < |items| ==> items[i] == items[1..][i - 1];
      assert PlainJson(Arr(items)) <==> PlainJson(items[0]) && PlainJson(Arr(items[1..]));
    }
  }

  lemma PlainMore(rest: string, first: string)
    ensures Plain(first + ("," + rest)) <==> Plain(first) && Plain(rest)
  {
    PlainConcat(first, "," + rest);
    PlainConcat(",", rest);
  }

  lemma {:induction false} FieldModes(f: Field)
    ensures Plain(DumpField(true, f))
    ensures Plain(DumpField(false, f)) <==> Plain(f.key) && PlainJson(f.value)
    ensures Plain(f.key) && PlainJson(f.value) ==> DumpField(true, f) == DumpField(false, f)
    decreases f, 0
  {
    QuoteModes(f.key);
    DumpModes(f.value);
    PlainConcat(Quote(true, f.key) + ":", Dump(true, f.value));
    PlainConcat(Quote(true, f.key), ":");
    PlainConcat(Quote(false, f.key) + ":", Dump(false, f.value));
    PlainConcat(Quote(false, f.key), ":");
  }

  lemma {:induction false} FieldsModes(fields: seq<Field>)
    ensures Plain(DumpFields(true, fields))
    ensures Plain(DumpFields(false, fields)) <==> PlainJson(Obj(fields))
    ensures PlainJson(Obj(fields)) ==> DumpFields(true, fields) == DumpFields(false, fields)
    decreases fields, 0
  {
    if fields != [] {
      FieldModes(fields[0]);
      FieldsModes(fields[1..]);
      PlainMore(DumpFields(true, fields[1..]), DumpField(true, fields[0]));
      PlainMore(DumpFields(false, fields[1..]), DumpField(false, fields[0]));
      PlainConcat(DumpField(true, fields[0]), "");
      PlainConcat(DumpField(false, fields[0]), "");
      assert forall i :: 1 <= i < |fields| ==> fields[i] == fields[1..][i - 1];
      assert PlainJson(Obj(fields)) <==> Plain(fields[0].key) && PlainJson(fields[0].value) && PlainJson(Obj(fields[1..]));
    }
  }

  /** `ensure_ascii=True` and `ensure_ascii=False` give the same text exactly when no character is DEL or above. */
  lemma ModesAgree(j: Json)
    ensures Dump(true, j) == Dump(false, j) <==> PlainJson(j)
  {
    DumpModes(j);
  }

  /** A text of one mode met in the other mode comes from the same value, and that value is plain. */
  lemma CrossModeText(a: Json, b: Json)
    requires Dump(false, a) == Dump(true, b)
    ensures a == b && PlainJson(a)
  {
    DumpModes(a);
    DumpModes(b);
    TextIsInjective(a, b);
  }
}
