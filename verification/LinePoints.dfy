/**
 Whole points of InfluxDB line protocol (ming.py): `build_line`, a reference parser of
 the format, and the proof that the parser returns exactly the point that was printed.
*/
module LinePoints {
  import opened Wrappers
  import opened Bytes
  import opened LineProtocol

  datatype Refusal = ReservedName | CommentName | FieldCount | TagCount | BadText | BadValue | BadTimestamp

  const NAME_SPECIAL: string := ", "
  const KEY_SPECIAL: string := ",= "

  // ------------------------------------------------------------------ printing

  function TagsText(tags: Items<string>): string {
    if tags == [] then ""
    else TagText(tags[0]) + TagsText(tags[1..])
  }

  function FieldText(f: Item<Value>): string
    requires FieldValue(f.value).Some?
  {
    Escape(f.key, KEY_SPECIAL) + "=" + FieldValue(f.value).value
  }

  predicate Valued(fields: Items<Value>) { forall i :: 0 <= i < |fields| ==> FieldValue(fields[i].value).Some? }

  /** The field set after its first item. */
  function MoreFields(fields: Items<Value>): string
    requires Valued(fields)
  {
    if fields == [] then "" else "," + FieldText(fields[0]) + MoreFields(fields[1..])
  }

  function TimeText(timestamp: Option<nat>): string {
    match timestamp case None => "" case Some(t) => " " + Decimal(t)
  }

  function Line(measurement: string, tags: Items<string>, fields: Items<Value>, timestamp: Option<nat>): string
    requires fields != [] && Valued(fields)
  {
    Escape(measurement, NAME_SPECIAL) + TagsText(tags) + " " + FieldText(fields[0]) + MoreFields(fields[1..])
    + TimeText(timestamp)
  }

  predicate Named(name: string) { name != "" && name[0] == '_' }

  /** What `build_line` accepts, in the order of its checks. */
  function TagsRefused(tags: Items<string>, printable: char -> bool): Option<Refusal> {
    if tags == [] then None
    else if Named(tags[0].key) then Some(ReservedName)
    else if !TextOk(tags[0].key, printable) || !TextOk(tags[0].value, printable) then Some(BadText)
    else TagsRefused(tags[1..], printable)
  }

  function FieldsRefused(fields: Items<Value>, printable: char -> bool): Option<Refusal> {
    if fields == [] then None
    else if Named(fields[0].key) then Some(ReservedName)
    else if !TextOk(fields[0].key, printable) then Some(BadText)
    else if FieldValue(fields[0].value).None? then Some(BadValue)
    else FieldsRefused(fields[1..], printable)
  }

  lemma {:induction false} AcceptedFieldsHaveValues(fields: Items<Value>, printable: char -> bool)
    requires FieldsRefused(fields, printable).None?
    ensures Valued(fields)
  {
    if fields != [] { AcceptedFieldsHaveValues(fields[1..], printable); }
  }

  /** `build_line` on the sorted items of its dictionaries. */
  function BuiltSorted(measurement: string, fields: Items<Value>, tags: Items<string>, timestamp: Option<int>,
                       printable: char -> bool): Result<string, Refusal>
  {
    if Named(measurement) then Failure(ReservedName)
    else if measurement != "" && measurement[0] == '#' then Failure(CommentName)
    else if fields == [] || |fields| > MAX_FIELDS then Failure(FieldCount)
    else if |tags| > MAX_TAGS then Failure(TagCount)
    else if !TextOk(measurement, printable) then Failure(BadText)
    else if TagsRefused(tags, printable).Some? then Failure(TagsRefused(tags, printable).value)
    else if FieldsRefused(fields, printable).Some? then Failure(FieldsRefused(fields, printable).value)
    else if timestamp.Some? && timestamp.value < 0 then Failure(BadTimestamp)
    else
      AcceptedFieldsHaveValues(fields, printable);
      var time: Option<nat> := if timestamp.Some? then Some(timestamp.value) else None;
      Success(Line(measurement, tags, fields, time))
  }

  /** `build_line` on dict items in insertion order. */
  function Built(measurement: string, fields: Items<Value>, tags: Items<string>, timestamp: Option<int>,
                 printable: char -> bool): Result<string, Refusal>
  {
    BuiltSorted(measurement, SortItems(fields), SortItems(tags), timestamp, printable)
  }

  function TagText(tag: Item<string>): string {
    "," + Escape(tag.key, KEY_SPECIAL) + "=" + Escape(tag.value, KEY_SPECIAL)
  }

  lemma {:induction false} TagsTextSnoc(tags: Items<string>, last: Item<string>)
    ensures TagsText(tags + [last]) == TagsText(tags) + TagText(last)
  {
    if tags == [] {
      assert [last][1..] == [];
    } else {
      TagsTextSnoc(tags[1..], last);
      assert (tags + [last])[1..] == tags[1..] + [last];
      Regroup(TagText(tags[0]), TagsText(tags[1..]), TagText(last));
    }
  }

  /** ",".join(parts). */
  function CommaJoin(parts: seq<string>): string {
    if parts == [] then "" else if |parts| == 1 then parts[0] else parts[0] + ("," + CommaJoin(parts[1..]))
  }

  ghost predicate FieldTexts(parts: seq<string>, fields: Items<Value>) {
    |parts| == |fields| && Valued(fields) && forall i :: 0 <= i < |fields| ==> parts[i] == FieldText(fields[i])
  }

  lemma {:induction false} FieldTextsGrow(parts: seq<string>, fields: Items<Value>, i: nat, part: string)
    requires i < |fields| && FieldTexts(parts, fields[..i]) && FieldValue(fields[i].value).Some?
    requires part == FieldText(fields[i])
    ensures FieldTexts(parts + [part], fields[..i + 1])
  {
  }

  lemma {:induction false} JoinedFields(parts: seq<string>, fields: Items<Value>)
    requires fields != [] && FieldTexts(parts, fields)
    ensures CommaJoin(parts) == FieldText(fields[0]) + MoreFields(fields[1..])
  {
    if |fields| == 1 {
      assert fields[1..] == [];
      assert parts[0] + "" == parts[0];
    } else {
      JoinedFields(parts[1..], fields[1..]);
      var (next, more) := (FieldText(fields[1]), MoreFields(fields[1..][1..]));
      Regroup(",", next, more);
    }
  }

  /** The tag loop: each pass adds one escaped pair to the head. */
  method AddTags(head: string, tags: Items<string>, printable: char -> bool) returns (r: Result<string, Refusal>)
    ensures r == match TagsRefused(tags, printable)
                 case Some(refusal) => Failure(refusal)
                 case None => Success(head + TagsText(tags))
  {
    var out := head;
    assert tags[0..] == tags && head + "" == head;
    for i := 0 to |tags|
      invariant TagsRefused(tags, printable) == TagsRefused(tags[i..], printable)
      invariant out == head + TagsText(tags[..i])
    {
      assert tags[i..][1..] == tags[i + 1..] && tags[..i + 1] == tags[..i] + [tags[i]];
      if Named(tags[i].key) {
        return Failure(ReservedName);
      }
      var key := Lp(tags[i].key, KEY_SPECIAL, printable);
      if key.None? {
        return Failure(BadText);
      }
      var value := Lp(tags[i].value, KEY_SPECIAL, printable);
      if value.None? {
        return Failure(BadText);
      }
      TagsTextSnoc(tags[..i], tags[i]);
      Regroup(head, TagsText(tags[..i]), TagText(tags[i]));
      out := out + ("," + key.value + "=" + value.value);
    }
    assert tags[..|tags|] == tags;
    return Success(out);
  }

  /** The field loop and its comma join. */
  method AddFields(fields: Items<Value>, printable: char -> bool) returns (r: Result<string, Refusal>)
    requires fields != []
    ensures FieldsRefused(fields, printable).Some? ==> r == Failure(FieldsRefused(fields, printable).value)
    ensures FieldsRefused(fields, printable).None? ==>
              Valued(fields) && r == Success(FieldText(fields[0]) + MoreFields(fields[1..]))
  {
    var parts: seq<string> := [];
    assert fields[0..] == fields;
    for i := 0 to |fields|
      invariant FieldsRefused(fields, printable) == FieldsRefused(fields[i..], printable)
      invariant FieldTexts(parts, fields[..i])
    {
      assert fields[i..][1..] == fields[i + 1..];
      if Named(fields[i].key) {
        return Failure(ReservedName);
      }
      var key := Lp(fields[i].key, KEY_SPECIAL, printable);
      if key.None? {
        return Failure(BadText);
      }
      var value := FieldValue(fields[i].value);
      if value.None? {
        return Failure(BadValue);
      }
      var part := key.value + "=" + value.value;
      FieldTextsGrow(parts, fields, i, part);
      parts := parts + [part];
    }
    assert fields[..|fields|] == fields;
    JoinedFields(parts, fields);
    return Success(CommaJoin(parts));
  }

  method BuildLine(measurement: string, fields: Items<Value>, tags: Items<string>, timestamp: Option<int>,
                   printable: char -> bool) returns (r: Result<string, Refusal>)
    ensures r == Built(measurement, fields, tags, timestamp, printable)
  {
    if Named(measurement) {
      return Failure(ReservedName);
    }
    if measurement != "" && measurement[0] == '#' {
      return Failure(CommentName);
    }
    if fields == [] || |fields| > MAX_FIELDS {
      return Failure(FieldCount);
    }
    if |tags| > MAX_TAGS {
      return Failure(TagCount);
    }
    var name := Lp(measurement, NAME_SPECIAL, printable);
    if name.None? {
      return Failure(BadText);
    }
    var head := AddTags(name.value, SortItems(tags), printable);
    if head.Failure? {
      return head;
    }
    var body := AddFields(SortItems(fields), printable);
    if body.Failure? {
      return body;
    }
    var line := head.value + " " + body.value;
    ghost var sorted := SortItems(fields);
    LinePieces(name.value, TagsText(SortItems(tags)), FieldText(sorted[0]), MoreFields(sorted[1..]),
               if timestamp.Some? && timestamp.value >= 0 then " " + Decimal(timestamp.value) else "");
    if timestamp.Some? {
      if timestamp.value < 0 {
        return Failure(BadTimestamp);
      }
      line := line + (" " + Decimal(timestamp.value));
    }
    assert line + "" == line;
    return Success(line);
  }

  // ------------------------------------------------------------------ the reference parser

  datatype Point = Point(measurement: string, tags: Items<string>, fields: Items<Value>, timestamp: Option<nat>)

  datatype Parsed<+T> = Bad | Parsed(items: T, rest: string)

  predicate StartsWith(s: string, c: char) { s != "" && s[0] == c }

  function ParseTags(s: string): (r: Parsed<Items<string>>)
    ensures r.Parsed? ==> |r.rest| <= |s|
    decreases |s|
  {
    if !StartsWith(s, ',') then Parsed([], s)
    else
      var key := ReadToken(s[1..], "=");
      if key.NoToken? || key.rest == "" then Bad
      else
        var value := ReadToken(key.rest[1..], ", ");
        if value.NoToken? then Bad
        else
          var more := ParseTags(value.rest);
          if more.Bad? then Bad else Parsed([Item(key.text, value.text)] + more.items, more.rest)
  }

  datatype OneField = NoField | OneField(item: Item<Value>, rest: string)

  function ParseField(s: string): (r: OneField)
    ensures r.OneField? ==> |r.rest| <= |s|
  {
    var key := ReadToken(s, "=");
    if key.NoToken? || key.rest == "" then NoField
    else
      match ParseValue(key.rest[1..])
      case ReadValue(v, rest) => OneField(Item(key.text, v), rest)
      case NoValue => NoField
  }

  function ParseMoreFields(s: string): (r: Parsed<Items<Value>>)
    decreases |s|
  {
    if !StartsWith(s, ',') then Parsed([], s)
    else
      match ParseField(s[1..])
      case NoField => Bad
      case OneField(item, rest) =>
        var more := ParseMoreFields(rest);
        if more.Bad? then Bad else Parsed([item] + more.items, more.rest)
  }

  function ParseLine(s: string): Option<Point> {
    if s == "" || s[0] == '#' then None
    else
      var name := ReadToken(s, ", ");
      if name.NoToken? then None
      else
        var tags := ParseTags(name.rest);
        if tags.Bad? || !StartsWith(tags.rest, ' ') then None
        else
          var first := ParseField(tags.rest[1..]);
          if first.NoField? then None
          else
            var more := ParseMoreFields(first.rest);
            if more.Bad? then None
            else if more.rest == "" then Some(Point(name.text, tags.items, [first.item] + more.items, None))
            else if more.rest[0] != ' ' then None
            else
              match ParseDecimal(more.rest[1..])
              case Some(t) => Some(Point(name.text, tags.items, [first.item] + more.items, Some(t)))
              case None => None
  }

  // ------------------------------------------------------------------ the parser undoes the printer

  lemma {:induction false} CommaPieces(a: string, b: string, t: string)
    ensures StartsWith("," + a + b + t, ',') && ("," + a + b + t)[1..] == a + (b + t)
  {
  }

  lemma {:induction false} PairPieces(key: string, value: string, t: string)
    ensures key + "=" + value + t == key + ("=" + (value + t)) && ("=" + (value + t))[1..] == value + t
  {
  }

  lemma {:induction false} TagPieces(key: string, value: string, more: string, t: string)
    ensures ("," + key + "=" + value + more) + t == "," + (key + ("=" + (value + (more + t))))
  {
  }

  lemma {:induction false} LinePieces(name: string, tags: string, field: string, more: string, time: string)
    ensures name + tags + " " + field + more + time == name + (tags + (" " + (field + (more + time))))
    ensures name + tags + " " + (field + more) + time == name + tags + " " + field + more + time
    ensures (" " + (field + (more + time)))[1..] == field + (more + time)
  {
  }

  lemma {:induction false} Behead(c: char, s: string)
    ensures ([c] + s)[1..] == s && ([c] + s)[0] == c
  {
  }

  lemma {:induction false} TagsRoundTrip(tags: Items<string>, t: string)
    requires StartsWith(t, ' ')
    ensures ParseTags(TagsText(tags) + t) == Parsed(tags, t)
    ensures Ends(TagsText(tags) + t, ", ")
  {
    if tags == [] {
      assert TagsText(tags) + t == t;
    } else {
      var (key, value) := (Escape(tags[0].key, KEY_SPECIAL), Escape(tags[0].value, KEY_SPECIAL));
      TagsRoundTrip(tags[1..], t);
      TagPieces(key, value, TagsText(tags[1..]), t);
      OneTag(tags[0].key, tags[0].value, TagsText(tags[1..]) + t);
      assert [tags[0]] + tags[1..] == tags;
    }
  }

  lemma {:induction false} OneTag(key: string, value: string, after: string)
    requires Ends(after, ", ")
    ensures var s := "," + (Escape(key, KEY_SPECIAL) + ("=" + (Escape(value, KEY_SPECIAL) + after)));
            var more := ParseTags(after);
            StartsWith(s, ',') &&
            ParseTags(s) == if more.Bad? then Bad else Parsed([Item(key, value)] + more.items, more.rest)
  {
    var rest := "=" + (Escape(value, KEY_SPECIAL) + after);
    Behead(',', Escape(key, KEY_SPECIAL) + rest);
    TokenRoundTrip(key, KEY_SPECIAL, "=", rest);
    Behead('=', Escape(value, KEY_SPECIAL) + after);
    TokenRoundTrip(value, KEY_SPECIAL, ", ", after);
  }

  lemma {:induction false} FieldRoundTrip(f: Item<Value>, t: string)
    requires FieldValue(f.value).Some? && Printable(f.value) && Ends(t, ", ")
    ensures ParseField(FieldText(f) + t) == OneField(f, t)
  {
    var printed := FieldValue(f.value).value;
    PairPieces(Escape(f.key, KEY_SPECIAL), printed, t);
    TokenRoundTrip(f.key, KEY_SPECIAL, "=", "=" + (printed + t));
    ValueRoundTrip(f.value, t);
  }

  lemma {:induction false} MoreFieldsRoundTrip(fields: Items<Value>, t: string)
    requires Valued(fields) && (forall i :: 0 <= i < |fields| ==> Printable(fields[i].value)) && Ends(t, " ")
    ensures ParseMoreFields(MoreFields(fields) + t) == Parsed(fields, t)
    ensures Ends(MoreFields(fields) + t, ", ")
  {
    if fields == [] {
      assert MoreFields(fields) + t == t;
    } else {
      var text := FieldText(fields[0]);
      var after := MoreFields(fields[1..]) + t;
      MoreFieldsRoundTrip(fields[1..], t);
      CommaPieces(text, MoreFields(fields[1..]), t);
      FieldRoundTrip(fields[0], after);
      assert [fields[0]] + fields[1..] == fields;
    }
  }

  lemma {:induction false} TimeRoundTrip(timestamp: Option<nat>)
    ensures var t := TimeText(timestamp);
            Ends(t, " ") && (timestamp.None? <==> t == "")
            && (timestamp.Some? ==> ParseDecimal(t[1..]) == timestamp)
  {
    if timestamp.Some? {
      DecimalRoundTrip(timestamp.value);
      assert TimeText(timestamp)[1..] == Decimal(timestamp.value);
    }
  }

  /** The field set and timestamp read back. */
  lemma {:induction false} BodyRoundTrip(fields: Items<Value>, timestamp: Option<nat>)
    requires fields != [] && Valued(fields) && forall i :: 0 <= i < |fields| ==> Printable(fields[i].value)
    ensures var more := MoreFields(fields[1..]) + TimeText(timestamp);
            ParseField(FieldText(fields[0]) + more) == OneField(fields[0], more)
            && ParseMoreFields(more) == Parsed(fields[1..], TimeText(timestamp))
  {
    TimeRoundTrip(timestamp);
    MoreFieldsRoundTrip(fields[1..], TimeText(timestamp));
    FieldRoundTrip(fields[0], MoreFields(fields[1..]) + TimeText(timestamp));
  }

  lemma {:induction false} EscapedStart(value: string, special: string, t: string)
    requires value != "" && value[0] != '#'
    ensures Escape(value, special) + t != "" && (Escape(value, special) + t)[0] != '#'
  {
  }

  lemma {:induction false} LineRoundTrip(measurement: string, tags: Items<string>, fields: Items<Value>, timestamp: Option<nat>)
    requires measurement != "" && measurement[0] != '#'
    requires fields != [] && Valued(fields) && forall i :: 0 <= i < |fields| ==> Printable(fields[i].value)
    ensures ParseLine(Line(measurement, tags, fields, timestamp)) == Some(Point(measurement, tags, fields, timestamp))
  {
    var more := MoreFields(fields[1..]) + TimeText(timestamp);
    var body := FieldText(fields[0]) + more;
    var after := TagsText(tags) + (" " + body);
    LinePieces(Escape(measurement, NAME_SPECIAL), TagsText(tags), FieldText(fields[0]), MoreFields(fields[1..]), TimeText(timestamp));
    EscapedStart(measurement, NAME_SPECIAL, after);
    TagsRoundTrip(tags, " " + body);
    TokenRoundTrip(measurement, NAME_SPECIAL, ", ", after);
    BodyRoundTrip(fields, timestamp);
    TimeRoundTrip(timestamp);
    Assemble(measurement, tags, fields, timestamp, after, " " + body, more,
             Line(measurement, tags, fields, timestamp));
  }

  /** The parser's own steps, once each piece is known to read back. */
  lemma {:induction false} Assemble(name: string, tags: Items<string>, fields: Items<Value>, timestamp: Option<nat>,
                 after: string, body: string, more: string, line: string)
    requires line != "" && line[0] != '#' && ReadToken(line, ", ") == Token(name, after)
    requires ParseTags(after) == Parsed(tags, body) && StartsWith(body, ' ')
    requires fields != [] && ParseField(body[1..]) == OneField(fields[0], more)
    requires ParseMoreFields(more) == Parsed(fields[1..], TimeText(timestamp))
    requires var t := TimeText(timestamp);
             Ends(t, " ") && (timestamp.None? <==> t == "") && (timestamp.Some? ==> ParseDecimal(t[1..]) == timestamp)
    ensures ParseLine(line) == Some(Point(name, tags, fields, timestamp))
  {
    hide ReadToken, ParseTags, ParseField, ParseMoreFields, ParseDecimal, TimeText;
    assert [fields[0]] + fields[1..] == fields;
  }

  lemma {:induction false} SortedFieldsPrintable(fields: Items<Value>)
    requires forall i :: 0 <= i < |fields| ==> Printable(fields[i].value)
    ensures forall i :: 0 <= i < |SortItems(fields)| ==> Printable(SortItems(fields)[i].value)
  {
    var s := SortItems(fields);
    forall i | 0 <= i < |s| ensures Printable(s[i].value) {
      assert s[i] in s;
      SortMember(fields, s[i]);
      var j := Position(fields, s[i]);
    }
  }

  /** Whatever `build_line` accepts, the reference parser returns exactly that point: the same
      measurement and timestamp, and the same tags and fields as dictionaries, in key order. */
  lemma {:induction false} ParserUndoesPrinter(measurement: string, fields: Items<Value>, tags: Items<string>, timestamp: Option<int>,
                            printable: char -> bool)
    requires Keyed(fields) && Keyed(tags) && forall i :: 0 <= i < |fields| ==> Printable(fields[i].value)
    requires Built(measurement, fields, tags, timestamp, printable).Success?
    ensures var p := ParseLine(Built(measurement, fields, tags, timestamp, printable).value);
      && p.Some? && p.value.measurement == measurement
      && MapOf(p.value.tags) == MapOf(tags) && Sorted(p.value.tags)
      && MapOf(p.value.fields) == MapOf(fields) && Sorted(p.value.fields)
      && (p.value.timestamp.None? <==> timestamp.None?)
      && (timestamp.Some? ==> p.value.timestamp == Some(timestamp.value))
  {
    AcceptedFieldsHaveValues(SortItems(fields), printable);
    SortedFieldsPrintable(fields);
    SortKeepsMap(fields);
    SortKeepsMap(tags);
    SortSorts(fields);
    SortSorts(tags);
    var time: Option<nat> := if timestamp.Some? then Some(timestamp.value) else None;
    LineRoundTrip(measurement, SortItems(tags), SortItems(fields), time);
  }

  // ------------------------------------------------------------------ what is accepted

  /** A text of 1 to 128 printable characters. */
  predicate PlainText(s: string, printable: char -> bool) {
    1 <= |s| <= 128 && forall i :: 0 <= i < |s| ==> printable(s[i])
  }

  /** A value that line protocol can carry: a 64-bit integer, a finite float, one line of text, a boolean. */
  predicate Carried(v: Value) {
    match v
    case Bool(_) => true
    case Int(i) => -0x8000_0000_0000_0000 <= i <= 0x7fff_ffff_ffff_ffff
    case Float(_) => true
    case Text(s) => '\n' !in s && '\r' !in s && '\0' !in s
    case _ => false
  }

  /** Whether there is such a fault in the point. */
  predicate AtFault(refusal: Refusal, measurement: string, fields: Items<Value>, tags: Items<string>, timestamp: Option<int>,
                    printable: char -> bool)
  {
    match refusal
    case ReservedName =>
      StartsWith(measurement, '_') || (exists t :: t in tags && StartsWith(t.key, '_'))
      || (exists f :: f in fields && StartsWith(f.key, '_'))
    case CommentName => StartsWith(measurement, '#')
    case FieldCount => |fields| == 0 || |fields| > 32
    case TagCount => |tags| > 16
    case BadText =>
      !PlainText(measurement, printable)
      || (exists t :: t in tags && !(PlainText(t.key, printable) && PlainText(t.value, printable)))
      || (exists f :: f in fields && !PlainText(f.key, printable))
    case BadValue => exists f :: f in fields && !Carried(f.value)
    case BadTimestamp => timestamp.Some? && timestamp.value < 0
  }

  lemma {:induction false} CarriedIs(v: Value)
    ensures FieldValue(v).Some? <==> Carried(v)
  {
  }

  lemma {:induction false} TagsAccepted(tags: Items<string>, printable: char -> bool)
    ensures var r := TagsRefused(tags, printable);
            && (r.None? <==> forall t :: t in tags ==>
                  !StartsWith(t.key, '_') && PlainText(t.key, printable) && PlainText(t.value, printable))
            && (r.Some? ==> r.value in {ReservedName, BadText})
            && (r == Some(ReservedName) ==> exists t :: t in tags && StartsWith(t.key, '_'))
            && (r == Some(BadText) ==> exists t :: t in tags && !(PlainText(t.key, printable) && PlainText(t.value, printable)))
  {
    if tags != [] {
      assert tags[0] in tags && forall t :: t in tags <==> t == tags[0] || t in tags[1..];
      TagsAccepted(tags[1..], printable);
    }
  }

  lemma {:induction false} FieldsAccepted(fields: Items<Value>, printable: char -> bool)
    ensures var r := FieldsRefused(fields, printable);
            && (r.None? <==> forall f :: f in fields ==>
                  !StartsWith(f.key, '_') && PlainText(f.key, printable) && Carried(f.value))
            && (r.Some? ==> r.value in {ReservedName, BadText, BadValue})
            && (r == Some(ReservedName) ==> exists f :: f in fields && StartsWith(f.key, '_'))
            && (r == Some(BadText) ==> exists f :: f in fields && !PlainText(f.key, printable))
            && (r == Some(BadValue) ==> exists f :: f in fields && !Carried(f.value))
  {
    if fields != [] {
      CarriedIs(fields[0].value);
      assert fields[0] in fields && forall f :: f in fields <==> f == fields[0] || f in fields[1..];
      FieldsAccepted(fields[1..], printable);
    }
  }

  /** A point is accepted exactly when it has none of these faults, and a refusal names one it has. */
  lemma {:induction false} AcceptedIff(measurement: string, fields: Items<Value>, tags: Items<string>, timestamp: Option<int>,
                                       printable: char -> bool)
    ensures var r := Built(measurement, fields, tags, timestamp, printable);
            && (r.Success? <==> forall refusal :: !AtFault(refusal, measurement, fields, tags, timestamp, printable))
            && (r.Failure? ==> AtFault(r.error, measurement, fields, tags, timestamp, printable))
  {
    hide SortItems, TagsRefused, FieldsRefused, PlainText, Carried;
    TagsAccepted(SortItems(tags), printable);
    FieldsAccepted(SortItems(fields), printable);
    forall t ensures t in SortItems(tags) <==> t in tags { SortMember(tags, t); }
    forall f ensures f in SortItems(fields) <==> f in fields { SortMember(fields, f); }
    PlainIs(measurement, printable);
    var r := Built(measurement, fields, tags, timestamp, printable);
    if r.Success? {
      forall refusal ensures !AtFault(refusal, measurement, fields, tags, timestamp, printable) {}
    } else {
      assert AtFault(r.error, measurement, fields, tags, timestamp, printable);
    }
  }

  lemma {:induction false} PlainIs(s: string, printable: char -> bool)
    ensures PlainText(s, printable) <==> TextOk(s, printable)
  {
  }

  predicate NoBreak(s: string) { '\n' !in s }

  lemma {:induction false} EscapeNoBreak(value: string, special: string)
    requires NoBreak(value)
    ensures NoBreak(Escape(value, special))
  {
    if value != "" { EscapeNoBreak(value[1..], special); }
  }

  lemma {:induction false} TagsNoBreak(tags: Items<string>, printable: char -> bool)
    requires !printable('\n') && TagsRefused(tags, printable).None?
    ensures NoBreak(TagsText(tags))
  {
    if tags != [] {
      EscapeNoBreak(tags[0].key, KEY_SPECIAL);
      EscapeNoBreak(tags[0].value, KEY_SPECIAL);
      TagsNoBreak(tags[1..], printable);
    }
  }

  lemma {:induction false} ValueNoBreak(v: Value)
    requires Printable(v) && FieldValue(v).Some?
    ensures NoBreak(FieldValue(v).value)
  {
    match v
    case Text(s) =>
      ChainIsEscape(s, "\"");
      EscapeNoBreak(s, "\"");
    case Int(i) => IntRoundTrip(i);
    case _ =>
  }

  lemma {:induction false} FieldsNoBreak(fields: Items<Value>, printable: char -> bool)
    requires !printable('\n') && FieldsRefused(fields, printable).None? && Valued(fields)
    requires forall i :: 0 <= i < |fields| ==> Printable(fields[i].value)
    ensures NoBreak(MoreFields(fields))
    ensures fields != [] ==> NoBreak(FieldText(fields[0])) && NoBreak(MoreFields(fields[1..]))
  {
    if fields != [] {
      EscapeNoBreak(fields[0].key, KEY_SPECIAL);
      ValueNoBreak(fields[0].value);
      FieldsNoBreak(fields[1..], printable);
    }
  }

  /** An accepted point is one line of the request body: nothing in it can start another. */
  lemma {:induction false} OnePointOneLine(measurement: string, fields: Items<Value>, tags: Items<string>, timestamp: Option<int>,
                        printable: char -> bool)
    requires !printable('\n') && forall i :: 0 <= i < |fields| ==> Printable(fields[i].value)
    requires Built(measurement, fields, tags, timestamp, printable).Success?
    ensures NoBreak(Built(measurement, fields, tags, timestamp, printable).value)
  {
    hide SortItems, Escape, TagsText, MoreFields, FieldText, TagsRefused, FieldsRefused, Decimal;
    var sorted := SortItems(fields);
    AcceptedFieldsHaveValues(sorted, printable);
    SortedFieldsPrintable(fields);
    EscapeNoBreak(measurement, NAME_SPECIAL);
    TagsNoBreak(SortItems(tags), printable);
    FieldsNoBreak(sorted, printable);
    if timestamp.Some? { DecimalRoundTrip(timestamp.value); }
  }

  /** Two accepted points with the same line are the same point. */
  lemma {:induction false} LinesAreInjective(m1: string, f1: Items<Value>, t1: Items<string>, s1: Option<int>,
                          m2: string, f2: Items<Value>, t2: Items<string>, s2: Option<int>, printable: char -> bool)
    requires Keyed(f1) && Keyed(t1) && forall i :: 0 <= i < |f1| ==> Printable(f1[i].value)
    requires Keyed(f2) && Keyed(t2) && forall i :: 0 <= i < |f2| ==> Printable(f2[i].value)
    requires Built(m1, f1, t1, s1, printable).Success?
    requires Built(m1, f1, t1, s1, printable) == Built(m2, f2, t2, s2, printable)
    ensures m1 == m2 && MapOf(f1) == MapOf(f2) && MapOf(t1) == MapOf(t2) && s1 == s2
  {
    ParserUndoesPrinter(m1, f1, t1, s1, printable);
    ParserUndoesPrinter(m2, f2, t2, s2, printable);
  }

  /** The same dictionaries, filled in any order, give the same line or the same refusal. */
  lemma {:induction false} DictOrderIsIrrelevant(m: string, f1: Items<Value>, f2: Items<Value>, t1: Items<string>, t2: Items<string>,
                              s: Option<int>, printable: char -> bool)
    requires Keyed(f1) && Keyed(f2) && Keyed(t1) && Keyed(t2)
    requires multiset(f1) == multiset(f2) && multiset(t1) == multiset(t2)
    ensures Built(m, f1, t1, s, printable) == Built(m, f2, t2, s, printable)
  {
    SameSort(f1, f2);
    SameSort(t1, t2);
  }

  lemma {:induction false} SameSort<V>(a: Items<V>, b: Items<V>)
    requires Keyed(a) && Keyed(b) && multiset(a) == multiset(b)
    ensures SortItems(a) == SortItems(b) && |a| == |b|
  {
    SortSorts(a);
    SortSorts(b);
    assert |multiset(a)| == |a| && |multiset(b)| == |b|;
    forall x ensures x in SortItems(a) <==> x in SortItems(b) {
      SortMember(a, x);
      SortMember(b, x);
      assert x in multiset(a) <==> x in multiset(b);
    }
    SortedIsUnique(SortItems(a), SortItems(b));
  }
}
