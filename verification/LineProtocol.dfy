/**
 InfluxDB line protocol (ming.py): the printer, built from successive whole-string
 replaces, and a reference parser that undoes it.
*/
module LineProtocol {
  import opened Wrappers
  import opened Bytes

  const IDENTIFIER_LIMIT: nat := 128
  const MAX_TAGS: nat := 16
  const MAX_FIELDS: nat := 32

  // ------------------------------------------------------------------ escaping

  /** str.replace of one character by a string, over the whole string. */
  function Replace(s: string, c: char, with: string): string {
    if s == "" then ""
    else (if s[0] == c then with else [s[0]]) + Replace(s[1..], c, with)
  }

  /** `_lp` after its text check: backslashes first, then each special character in turn. */
  function EscapeChain(value: string, special: string): string {
    if special == "" then Replace(value, '\\', "\\\\")
    else
      var last := special[|special| - 1];
      Replace(EscapeChain(value, special[..|special| - 1]), last, ['\\', last])
  }

  /** One character at a time: a backslash before every backslash and special character. */
  function Escape(value: string, special: string): string {
    if value == "" then ""
    else (if value[0] == '\\' || value[0] in special then ['\\', value[0]] else [value[0]]) + Escape(value[1..], special)
  }

  lemma {:induction false} ReplaceEscaped(value: string, special: string, c: char)
    requires c != '\\' && c !in special
    ensures Replace(Escape(value, special), c, ['\\', c]) == Escape(value, special + [c])
  {
    if value != "" {
      ReplaceEscaped(value[1..], special, c);
      var rest := Escape(value[1..], special);
      var x := value[0];
      if x == '\\' || x in special {
        assert (['\\', x] + rest)[1..] == [x] + rest;
        assert ([x] + rest)[1..] == rest;
        assert Replace(['\\', x] + rest, c, ['\\', c]) == ['\\'] + ([x] + Replace(rest, c, ['\\', c]));
      } else {
        assert ([x] + rest)[1..] == rest;
      }
    }
  }

  lemma {:induction false} ReplaceBackslash(value: string)
    ensures Replace(value, '\\', "\\\\") == Escape(value, "")
  {
    if value != "" { ReplaceBackslash(value[1..]); }
  }

  ghost predicate Distinct(special: string) {
    '\\' !in special && forall i, j :: 0 <= i < j < |special| ==> special[i] != special[j]
  }

  /** The chained whole-string replaces are one character-wise escape. */
  lemma {:induction false} ChainIsEscape(value: string, special: string)
    requires Distinct(special)
    ensures EscapeChain(value, special) == Escape(value, special)
  {
    if special == "" {
      ReplaceBackslash(value);
    } else {
      var before := special[..|special| - 1];
      ChainIsEscape(value, before);
      ReplaceEscaped(value, before, special[|special| - 1]);
      assert before + [special[|special| - 1]] == special;
    }
  }

  predicate TextOk(value: string, printable: char -> bool) {
    value != "" && |value| <= IDENTIFIER_LIMIT && forall i :: 0 <= i < |value| ==> printable(value[i])
  }

  /** `_lp`. */
  method Lp(value: string, special: string, printable: char -> bool) returns (r: Option<string>)
    requires Distinct(special)
    ensures r == if TextOk(value, printable) then Some(Escape(value, special)) else None
  {
    if !TextOk(value, printable) {
      return None;
    }
    var escaped := Replace(value, '\\', "\\\\");
    for i := 0 to |special|
      invariant escaped == EscapeChain(value, special[..i])
    {
      assert special[..i + 1][..i] == special[..i];
      escaped := Replace(escaped, special[i], ['\\', special[i]]);
    }
    assert special[..|special|] == special;
    ChainIsEscape(value, special);
    return Some(escaped);
  }

  // ------------------------------------------------------------------ reading a token back

  /** Characters up to the first unescaped stop, with escapes undone, and what follows. */
  datatype Token = NoToken | Token(text: string, rest: string)

  function ReadToken(s: string, stops: string): (t: Token)
    ensures t.Token? ==> |t.rest| <= |s|
  {
    if s == "" || s[0] in stops then Token("", s)
    else if s[0] == '\\' then
      if |s| == 1 then NoToken
      else
        match ReadToken(s[2..], stops)
        case Token(text, rest) => Token([s[1]] + text, rest)
        case NoToken => NoToken
    else
      match ReadToken(s[1..], stops)
      case Token(text, rest) => Token([s[0]] + text, rest)
      case NoToken => NoToken
  }

  /** What may follow a token without being taken for part of it. */
  predicate Ends(t: string, stops: string) { t == "" || t[0] in stops }

  lemma {:induction false} TokenStep(c: char, escaped: bool, rest: string, stops: string)
    requires escaped || (c != '\\' && c !in stops)
    requires '\\' !in stops && ReadToken(rest, stops).Token?
    ensures var s := (if escaped then ['\\', c] else [c]) + rest;
            ReadToken(s, stops) == Token([c] + ReadToken(rest, stops).text, ReadToken(rest, stops).rest)
  {
    var s := (if escaped then ['\\', c] else [c]) + rest;
    assert if escaped then s[2..] == rest else s[1..] == rest;
  }

  /** An escaped value is read back whole, whatever it contains, and stops where it should. */
  lemma {:induction false} TokenRoundTrip(value: string, special: string, stops: string, t: string)
    requires forall c :: c in stops ==> c in special
    requires '\\' !in stops && Ends(t, stops)
    ensures ReadToken(Escape(value, special) + t, stops) == Token(value, t)
  {
    if value == "" {
      assert Escape(value, special) + t == t;
    } else {
      TokenRoundTrip(value[1..], special, stops, t);
      var escaped := value[0] == '\\' || value[0] in special;
      TokenStep(value[0], escaped, Escape(value[1..], special) + t, stops);
      Regroup(if escaped then ['\\', value[0]] else [value[0]], Escape(value[1..], special), t);
      assert [value[0]] + value[1..] == value;
    }
  }

  // ------------------------------------------------------------------ field values

  /** A finite float is its `repr`; NonFinite and Unsupported are what the printer refuses. */
  datatype Value = Bool(b: bool) | Int(i: int) | Float(repr: string) | Text(s: string) | NonFinite | Unsupported

  predicate FloatChar(c: char) { '0' <= c <= '9' || c == '.' || c == '-' || c == '+' || c == 'e' }

  /** All that is assumed of a float's repr: its alphabet. */
  predicate FloatRepr(r: string) { r != "" && forall c :: c in r ==> FloatChar(c) }

  function Digit(d: nat): char
    requires d < 10
  {
    '0' + d as char
  }

  function Decimal(n: nat): (s: string)
    ensures s != ""
  {
    if n < 10 then [Digit(n)] else Decimal(n / 10) + [Digit(n % 10)]
  }

  function PrintInt(i: int): string { if i < 0 then "-" + Decimal(-i) else Decimal(i) }

  predicate Fits64(i: int) { -0x8000_0000_0000_0000 <= i < 0x8000_0000_0000_0000 }

  predicate OneLine(s: string) { '\n' !in s && '\r' !in s && '\0' !in s }

  /** `_field_value`; strings escape backslashes, then quotes. */
  function FieldValue(v: Value): Option<string> {
    match v
    case Bool(b) => Some(if b then "true" else "false")
    case Int(i) => if Fits64(i) then Some(PrintInt(i) + "i") else None
    case Float(repr) => Some(repr)
    case Text(s) => if OneLine(s) then Some("\"" + EscapeChain(s, "\"") + "\"") else None
    case NonFinite => None
    case Unsupported => None
  }

  function ParseDecimal(s: string): (r: Option<nat>) {
    if s == "" then None
    else
      var c := s[|s| - 1];
      if !('0' <= c <= '9') then None
      else
        var d := (c - '0') as int;
        if |s| == 1 then Some(d)
        else
          match ParseDecimal(s[..|s| - 1])
          case Some(n) => Some(10 * n + d)
          case None => None
  }

  function ParseInt(s: string): Option<int> {
    if s != "" && s[0] == '-' then
      var n := ParseDecimal(s[1..]);
      if n.None? then None else var magnitude: int := n.value; Some(-magnitude)
    else
      var n := ParseDecimal(s);
      if n.Some? then Some(n.value) else None
  }

  lemma {:induction false} DecimalRoundTrip(n: nat)
    ensures ParseDecimal(Decimal(n)) == Some(n)
    ensures forall c :: c in Decimal(n) ==> '0' <= c <= '9'
  {
    if n >= 10 {
      DecimalRoundTrip(n / 10);
      var s := Decimal(n);
      assert s[..|s| - 1] == Decimal(n / 10);
    }
  }

  lemma {:induction false} IntRoundTrip(i: int)
    ensures ParseInt(PrintInt(i)) == Some(i)
    ensures forall c :: c in PrintInt(i) ==> '0' <= c <= '9' || c == '-'
    ensures PrintInt(i) != ""
  {
    DecimalRoundTrip(if i < 0 then -i else i);
    if i < 0 {
      assert PrintInt(i)[1..] == Decimal(-i);
    } else {
      assert Decimal(i)[0] in Decimal(i);
    }
  }

  /** An unquoted value: everything before the next comma or space. */
  function Word(s: string): string {
    if s == "" || s[0] == ',' || s[0] == ' ' then "" else [s[0]] + Word(s[1..])
  }

  function ParseWord(w: string): Option<Value> {
    if w == "true" then Some(Bool(true))
    else if w == "false" then Some(Bool(false))
    else if w != "" && w[|w| - 1] == 'i' then
      match ParseInt(w[..|w| - 1]) case Some(i) => Some(Int(i)) case None => None
    else if FloatRepr(w) then Some(Float(w))
    else None
  }

  datatype ReadValue = NoValue | ReadValue(value: Value, rest: string)

  function ParseValue(s: string): (r: ReadValue)
    ensures r.ReadValue? ==> |r.rest| <= |s|
  {
    if s != "" && s[0] == '"' then
      match ReadToken(s[1..], "\"")
      case Token(text, rest) => if rest == "" then NoValue else ReadValue(Text(text), rest[1..])
      case NoToken => NoValue
    else
      WordIsPrefix(s);
      match ParseWord(Word(s))
      case Some(v) => ReadValue(v, s[|Word(s)|..])
      case None => NoValue
  }

  lemma {:induction false} WordIsPrefix(s: string)
    ensures Word(s) <= s
  {
    if s != "" && s[0] != ',' && s[0] != ' ' {
      WordIsPrefix(s[1..]);
      assert [s[0]] + s[1..] == s;
    }
  }

  lemma {:induction false} WordOf(w: string, t: string)
    requires ',' !in w && ' ' !in w && Ends(t, ", ")
    ensures Word(w + t) == w && (w + t)[|w|..] == t
  {
    if w == "" {
      assert w + t == t;
    } else {
      assert (w + t)[1..] == w[1..] + t;
      WordOf(w[1..], t);
      assert [w[0]] + w[1..] == w;
    }
  }

  predicate Printable(v: Value) { v.Float? ==> FloatRepr(v.repr) }

  lemma {:induction false} PlainWord(v: Value)
    requires Printable(v) && !v.Text? && FieldValue(v).Some?
    ensures WordFor(FieldValue(v).value, v)
  {
    match v
    case Int(i) => IntWord(i);
    case Float(repr) => FloatWord(repr);
    case _ =>
  }

  predicate WordFor(w: string, v: Value) {
    w != "" && ',' !in w && ' ' !in w && w[0] != '"' && ParseWord(w) == Some(v)
  }

  lemma {:induction false} IntWord(i: int)
    ensures WordFor(PrintInt(i) + "i", Int(i))
  {
    IntRoundTrip(i);
    var w := PrintInt(i) + "i";
    assert w[..|w| - 1] == PrintInt(i) && w[|w| - 1] == 'i';
    assert w[0] in PrintInt(i);
  }

  lemma {:induction false} FloatWord(repr: string)
    requires Printable(Float(repr))
    ensures WordFor(repr, Float(repr))
  {
    assert repr[0] in repr && repr[|repr| - 1] in repr;
  }

  lemma {:induction false} TextRoundTrip(s: string, t: string)
    requires FieldValue(Text(s)).Some?
    ensures ParseValue(FieldValue(Text(s)).value + t) == ReadValue(Text(s), t)
  {
    ChainIsEscape(s, "\"");
    var quoted := Escape(s, "\"") + ("\"" + t);
    assert (FieldValue(Text(s)).value + t)[1..] == quoted;
    TokenRoundTrip(s, "\"", "\"", "\"" + t);
    assert ("\"" + t)[1..] == t;
  }

  /** Whatever the value, the parser reads back exactly it and stops at what follows. */
  lemma {:induction false} ValueRoundTrip(v: Value, t: string)
    requires Printable(v) && FieldValue(v).Some? && Ends(t, ", ")
    ensures ParseValue(FieldValue(v).value + t) == ReadValue(v, t)
  {
    if v.Text? {
      TextRoundTrip(v.s, t);
    } else {
      PlainWord(v);
      WordOf(FieldValue(v).value, t);
    }
  }

  // ------------------------------------------------------------------ dictionaries

  datatype Item<+V> = Item(key: string, value: V)
  type Items<+V> = seq<Item<V>>

  predicate Less(a: string, b: string) {
    if b == "" then false
    else if a == "" then true
    else a[0] < b[0] || (a[0] == b[0] && Less(a[1..], b[1..]))
  }

  /** The items of a dict: no key twice. */
  ghost predicate Keyed<V>(items: Items<V>) {
    forall i, j :: 0 <= i < j < |items| ==> items[i].key != items[j].key
  }

  predicate Sorted<V>(items: Items<V>) {
    forall i, j :: 0 <= i < j < |items| ==> Less(items[i].key, items[j].key)
  }

  function MapOf<V>(items: Items<V>): map<string, V> {
    if items == [] then map[] else MapOf(items[1..])[items[0].key := items[0].value]
  }

  predicate Binds<V(==)>(m: map<string, V>, k: string, v: V) { k in m && m[k] == v }

  lemma {:induction false} Position<T>(s: seq<T>, x: T) returns (j: nat)
    requires x in s
    ensures j < |s| && s[j] == x
  {
    j :| j < |s| && s[j] == x;
  }

  lemma {:induction false} HeadIsIn<T>(s: seq<T>)
    requires s != []
    ensures s[0] in s
  {
  }

  function Insert<V>(item: Item<V>, items: Items<V>): Items<V> {
    if items == [] || Less(item.key, items[0].key) then [item] + items
    else [items[0]] + Insert(item, items[1..])
  }

  /** `sorted(d.items())`; keys are distinct, so values are never compared. */
  function SortItems<V>(items: Items<V>): (s: Items<V>)
    ensures |s| == |items|
  {
    if items == [] then []
    else
      InsertGrows(items[0], SortItems(items[1..]));
      Insert(items[0], SortItems(items[1..]))
  }

  lemma {:induction false} InsertGrows<V>(item: Item<V>, items: Items<V>)
    ensures |Insert(item, items)| == |items| + 1
  {
    if items != [] && !Less(item.key, items[0].key) {
      InsertGrows(item, items[1..]);
    }
  }

  lemma {:induction false} InsertMember<V>(item: Item<V>, items: Items<V>, x: Item<V>)
    ensures x in Insert(item, items) <==> x == item || x in items
  {
    if items != [] && !Less(item.key, items[0].key) {
      InsertMember(item, items[1..], x);
      assert x in items <==> x == items[0] || x in items[1..];
    }
  }

  lemma {:induction false} SortMember<V>(items: Items<V>, x: Item<V>)
    ensures x in SortItems(items) <==> x in items
  {
    if items != [] {
      SortMember(items[1..], x);
      InsertMember(items[0], SortItems(items[1..]), x);
      assert x in items <==> x == items[0] || x in items[1..];
    }
  }

  lemma {:induction false} LessTotal(a: string, b: string)
    ensures a != b ==> Less(a, b) || Less(b, a)
    ensures !(Less(a, b) && Less(b, a))
  {
    if a != "" && b != "" {
      LessTotal(a[1..], b[1..]);
      if a[0] == b[0] {
        assert a == [a[0]] + a[1..] && b == [b[0]] + b[1..];
      }
    }
  }

  lemma {:induction false} LessTrans(a: string, b: string, c: string)
    requires Less(a, b) && Less(b, c)
    ensures Less(a, c)
  {
    if a != "" && a[0] == b[0] && b[0] == c[0] { LessTrans(a[1..], b[1..], c[1..]); }
  }

  lemma {:induction false} InsertSorts<V>(item: Item<V>, items: Items<V>)
    requires Sorted(items) && forall x :: x in items ==> x.key != item.key
    ensures Sorted(Insert(item, items))
  {
    if items != [] {
      LessTotal(item.key, items[0].key);
      if Less(item.key, items[0].key) {
        forall i | 1 <= i < |items| ensures Less(item.key, items[i].key) { LessTrans(item.key, items[0].key, items[i].key); }
      } else {
        var rest := Insert(item, items[1..]);
        InsertSorts(item, items[1..]);
        forall i | 0 <= i < |rest| ensures Less(items[0].key, rest[i].key) {
          assert items[0] in items && rest[i] in rest;
          if rest[i] != item {
            var x := rest[i];
            InsertMember(item, items[1..], x);
            var j := Position(items[1..], x);
            assert items[j + 1] == rest[i];
          }
        }
      }
    }
  }

  lemma {:induction false} SortSorts<V>(items: Items<V>)
    requires Keyed(items)
    ensures Sorted(SortItems(items))
  {
    if items != [] {
      SortSorts(items[1..]);
      var s := SortItems(items[1..]);
      forall x | x in s ensures x.key != items[0].key {
        SortMember(items[1..], x);
        var j := Position(items[1..], x);
        assert items[j + 1] == x;
      }
      InsertSorts(items[0], s);
    }
  }

  lemma {:induction false} MapOfItems<V>(items: Items<V>)
    requires Keyed(items)
    ensures forall k, v :: Binds(MapOf(items), k, v) <==> Item(k, v) in items
  {
    if items != [] {
      MapOfItems(items[1..]);
      assert forall x :: x in items <==> x == items[0] || x in items[1..];
    }
  }

  /** Sorting changes the order of a dict's items, not the dict. */
  lemma {:induction false} SortKeepsMap<V>(items: Items<V>)
    requires Keyed(items)
    ensures Keyed(SortItems(items)) && MapOf(SortItems(items)) == MapOf(items)
  {
    SortSorts(items);
    var s := SortItems(items);
    forall i, j | 0 <= i < j < |s| ensures s[i].key != s[j].key { LessTotal(s[i].key, s[j].key); }
    MapOfItems(items);
    MapOfItems(s);
    forall k, v ensures Binds(MapOf(s), k, v) <==> Binds(MapOf(items), k, v) {
      SortMember(items, Item(k, v));
      assert Item(k, v) in s <==> Item(k, v) in items;
    }
    SameItemsSameMap(MapOf(s), MapOf(items));
  }

  lemma {:induction false} SameItemsSameMap<V>(a: map<string, V>, b: map<string, V>)
    requires forall k, v :: Binds(a, k, v) <==> Binds(b, k, v)
    ensures a == b
  {
    forall k | k in a ensures k in b && a[k] == b[k] { assert Binds(a, k, a[k]); }
    forall k | k in b ensures k in a { assert Binds(b, k, b[k]); }
  }

  /** The order in which a dict was filled does not reach the line. */
  lemma {:induction false} SortedIsUnique<V>(a: Items<V>, b: Items<V>)
    requires Sorted(a) && Sorted(b) && forall x :: x in a <==> x in b
    ensures a == b
  {
    if a == [] {
      if b != [] { HeadIsIn(b); }
    } else {
      HeadIsIn(a);
      assert b != [];
      HeadIsIn(b);
      var i := Position(b, a[0]);
      var j := Position(a, b[0]);
      LessTotal(a[0].key, b[0].key);
      assert i == 0 && j == 0;
      forall x ensures x in a[1..] <==> x in b[1..] {
        TailMembers(a, x);
        TailMembers(b, x);
      }
      SortedIsUnique(a[1..], b[1..]);
      assert a == [a[0]] + a[1..] && b == [b[0]] + b[1..];
    }
  }

  lemma {:induction false} TailMembers<V>(a: Items<V>, x: Item<V>)
    requires a != [] && Sorted(a)
    ensures x in a[1..] <==> x in a && x != a[0]
  {
    LessTotal(a[0].key, a[0].key);
    if x in a && x != a[0] {
      var i := Position(a, x);
      assert a[1..][i - 1] == x;
    }
  }
}
