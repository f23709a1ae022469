/** A JSON reader, and the proof that it undoes the canonical printer. */
module JsonDecoder {
  import opened Common
  import opened Sorting
  import opened CanonicalJson

  function HexValue(c: char): Option<int> {
    if '0' <= c <= '9' then Some(c as int - '0' as int)
    else if 'a' <= c <= 'f' then Some(c as int - 'a' as int + 10)
    else None
  }

  predicate Starts(c: char, s: string) {
    s != "" && s[0] == c
  }

  /** One string character, escaped or not, and the text after it. */
  function ReadChar(s: string): (r: Option<(char, string)>)
    requires s != "" && s[0] != '"'
    ensures r.Some? ==> |r.value.1| < |s|
  {
    if s[0] < ' ' then None
    else if s[0] != '\\' then Some((s[0], s[1..]))
    else if |s| < 2 then None
    else
      match s[1]
      case '"' => Some(('"', s[2..]))
      case '\\' => Some(('\\', s[2..]))
      case '/' => Some(('/', s[2..]))
      case 'b' => Some((8 as char, s[2..]))
      case 'f' => Some((12 as char, s[2..]))
      case 'n' => Some(('\n', s[2..]))
      case 'r' => Some(('\r', s[2..]))
      case 't' => Some(('\t', s[2..]))
      case 'u' =>
        if |s| < 6 || s[2] != '0' || s[3] != '0' then None
        else
          (match (HexValue(s[4]), HexValue(s[5]))
           case (Some(h), Some(l)) => Some(((16 * h + l) as char, s[6..]))
           case _ => None)
      case _ => None
  }

  /** The characters up to the closing quote, and the text after it. */
  function ReadString(s: string): (r: Option<(string, string)>)
    ensures r.Some? ==> |r.value.1| < |s|
  {
    if s == "" then None
    else if s[0] == '"' then Some(("", s[1..]))
    else
      match ReadChar(s)
      case None => None
      case Some((c, rest)) =>
        match ReadString(rest)
        case None => None
        case Some((cs, after)) => Some(([c] + cs, after))
  }

  function NumberLength(s: string): (n: nat)
    ensures n <= |s|
  {
    if s == "" || !NumberChar(s[0]) then 0 else 1 + NumberLength(s[1..])
  }

  function ReadValue(s: string): (r: Option<(Value, string)>)
    ensures r.Some? ==> |r.value.1| < |s|
    decreases |s|, 0
  {
    if s == "" then None
    else if "null" <= s then Some((VNull, s[4..]))
    else if "true" <= s then Some((VBool(true), s[4..]))
    else if "false" <= s then Some((VBool(false), s[5..]))
    else if NumberChar(s[0]) then
      var n := NumberLength(s);
      Some((VNumber(s[..n]), s[n..]))
    else if s[0] == '"' then
      (match ReadString(s[1..])
       case None => None
       case Some((t, rest)) => Some((VStr(t), rest)))
    else if s[0] == '[' then
      if Starts(']', s[1..]) then Some((VArray([]), s[2..]))
      else
        (match ReadItems(s[1..])
         case None => None
         case Some((items, rest)) => Some((VArray(items), rest)))
    else if s[0] == '{' then
      if Starts('}', s[1..]) then Some((VObject(map[]), s[2..]))
      else
        (match ReadMembers(s[1..])
         case None => None
         case Some((fields, rest)) => Some((VObject(fields), rest)))
    else None
  }

  /** A non-empty comma-separated list of values and its closing bracket. */
  function ReadItems(s: string): (r: Option<(seq<Value>, string)>)
    ensures r.Some? ==> |r.value.1| < |s|
    decreases |s|, 1
  {
    match ReadValue(s)
    case None => None
    case Some((v, rest)) =>
      if Starts(']', rest) then Some(([v], rest[1..]))
      else if Starts(',', rest) then
        match ReadItems(rest[1..])
        case None => None
        case Some((vs, after)) => Some(([v] + vs, after))
      else None
  }

  /** One `"key":value` pair. */
  function ReadMember(s: string): (r: Option<(string, Value, string)>)
    ensures r.Some? ==> |r.value.2| < |s|
    decreases |s|, 1
  {
    if !Starts('"', s) then None
    else
      match ReadString(s[1..])
      case None => None
      case Some((key, colon)) =>
        if !Starts(':', colon) then None
        else
          match ReadValue(colon[1..])
          case None => None
          case Some((v, rest)) => Some((key, v, rest))
  }

  /** A non-empty comma-separated list of members and its closing brace. */
  function ReadMembers(s: string): (r: Option<(map<string, Value>, string)>)
    ensures r.Some? ==> |r.value.1| < |s|
    decreases |s|, 2
  {
    match ReadMember(s)
    case None => None
    case Some((key, v, rest)) =>
      if Starts('}', rest) then Some((map[key := v], rest[1..]))
      else if Starts(',', rest) then
        match ReadMembers(rest[1..])
        case None => None
        case Some((fields, after)) => Some((fields[key := v], after))
      else None
  }

  /** A whole document: one value and nothing after it. */
  function Decode(s: string): Option<Value> {
    match ReadValue(s)
    case Some((v, "")) => Some(v)
    case _ => None
  }

  // --------------------------------------------------------- the inversion

  lemma ReadEscapedChar(c: char, rest: string)
    ensures EscapeChar(c) + rest != "" && (EscapeChar(c) + rest)[0] != '"'
    ensures ReadChar(EscapeChar(c) + rest) == Some((c, rest))
  {
    var e := EscapeChar(c);
    assert (e + rest)[|e|..] == rest;
    if c < ' ' && |e| == 6 {
      var h, l := c as int / 16, c as int % 16;
      assert HexValue(HexDigit(h)) == Some(h) && HexValue(HexDigit(l)) == Some(l);
      assert (e + rest)[4] == HexDigit(h) && (e + rest)[5] == HexDigit(l);
    }
  }

  lemma {:induction false} ReadQuoted(t: string, rest: string)
    ensures ReadString(Escape(t) + "\"" + rest) == Some((t, rest))
  {
    if t == "" {
      assert (Escape(t) + "\"" + rest) == "\"" + rest;
    } else {
      var tail := Escape(t[1..]) + "\"" + rest;
      Associate(EscapeChar(t[0]), Escape(t[1..]), "\"");
      Associate(EscapeChar(t[0]), Escape(t[1..]) + "\"", rest);
      ReadEscapedChar(t[0], tail);
      ReadQuoted(t[1..], rest);
      assert t == [t[0]] + t[1..];
    }
  }

  /** Text that cannot extend a number token. */
  predicate EndsNumber(rest: string) {
    rest == "" || !NumberChar(rest[0])
  }

  lemma {:induction false} ReadNumber(token: string, rest: string)
    requires forall i :: 0 <= i < |token| ==> NumberChar(token[i])
    requires EndsNumber(rest)
    ensures NumberLength(token + rest) == |token|
  {
    if token == "" {
      assert token + rest == rest;
    } else {
      assert (token + rest)[1..] == token[1..] + rest;
      ReadNumber(token[1..], rest);
    }
  }

  ghost function MeaningOfMembers(keys: seq<string>, entries: seq<Entry>): map<string, Value>
    requires forall k :: k in keys ==> k in KeysOf(entries)
  {
    if keys == [] then map[]
    else MeaningOfMembers(keys[1..], entries)[keys[0] := Meaning(Lookup(entries, keys[0]))]
  }

  lemma {:induction false} MembersCover(keys: seq<string>, entries: seq<Entry>)
    requires forall k :: k in keys ==> k in KeysOf(entries)
    ensures forall k :: k in MeaningOfMembers(keys, entries) <==> k in keys
    ensures forall k :: k in keys ==>
              MeaningOfMembers(keys, entries)[k] == Meaning(Lookup(entries, k))
  {
    if keys != [] {
      MembersCover(keys[1..], entries);
    }
  }

  lemma SortedMembersMeanTheObject(entries: seq<Entry>)
    ensures MeaningOfMembers(SortedKeys(entries), entries) == MeaningOfEntries(entries)
  {
    var keys := SortedKeys(entries);
    MembersCover(keys, entries);
    forall k
      ensures k in MeaningOfMembers(keys, entries) <==> k in MeaningOfEntries(entries)
      ensures k in MeaningOfEntries(entries) ==>
                MeaningOfMembers(keys, entries)[k] == MeaningOfEntries(entries)[k]
    {
      MeaningOfLookup(entries, k);
    }
  }

  /** The first character of a printed value is never a closing bracket. */
  lemma CanonStart(v: JsonValue)
    ensures Canon(v) != "" && Canon(v)[0] != ']' && Canon(v)[0] != '}'
  {
  }

  // One reading step for each shape of text, stated on what follows the first character.

  lemma ReadArrayText(body: string)
    requires body != ""
    ensures body[0] == ']' ==> ReadValue("[" + body) == Some((VArray([]), body[1..]))
    ensures body[0] != ']' ==>
              ReadValue("[" + body) ==
              match ReadItems(body)
              case None => None
              case Some((items, rest)) => Some((VArray(items), rest))
  {
    var s := "[" + body;
    assert s[0] == '[' && s[1..] == body && s[2..] == body[1..];
  }

  /** A bracket or a quote starts neither a literal nor a number. */
  lemma NoLiteral(s: string)
    requires s != "" && (s[0] == '{' || s[0] == '[' || s[0] == '"')
    ensures !("null" <= s) && !("true" <= s) && !("false" <= s) && !NumberChar(s[0])
  {
  }

  lemma ReadObjectText(body: string)
    requires body != ""
    ensures body[0] == '}' ==> ReadValue("{" + body) == Some((VObject(map[]), body[1..]))
    ensures body[0] != '}' ==>
              ReadValue("{" + body) ==
              match ReadMembers(body)
              case None => None
              case Some((fields, rest)) => Some((VObject(fields), rest))
  {
    var s := "{" + body;
    NoLiteral(s);
    assert s[1..] == body && s[2..] == body[1..];
  }

  lemma ReadStringText(t: string, rest: string)
    ensures ReadsBack(Str(t), rest)
  {
    var s := Quote(t) + rest;
    assert s[0] == '"' && s[1..] == Escape(t) + "\"" + rest;
    ReadQuoted(t, rest);
  }

  lemma ReadNumberText(token: string, rest: string)
    requires WellFormed(Number(token)) && EndsNumber(rest)
    ensures ReadsBack(Number(token), rest)
  {
    var s := token + rest;
    ReadNumber(token, rest);
    assert s[0] == token[0] && s[..|token|] == token && s[|token|..] == rest;
  }

  lemma ReadLiteralText(v: JsonValue, rest: string)
    requires v.Null? || v.Bool?
    ensures ReadsBack(v, rest)
  {
    var word := Canon(v);
    var s := word + rest;
    assert s[0] == word[0] && s[|word|..] == rest;
    assert word <= s;
  }

  lemma ReadMemberText(key: string, text: string, v: Value, rest: string)
    requires ReadValue(text) == Some((v, rest))
    ensures ReadMember(Quote(key) + ":" + text) == Some((key, v, rest))
  {
    var s := Quote(key) + ":" + text;
    var colon := ":" + text;
    assert s[0] == '"' && s[1..] == Escape(key) + "\"" + colon;
    ReadQuoted(key, colon);
    assert colon[1..] == text;
  }

  lemma ReadLastMember(text: string, key: string, v: Value, rest: string)
    requires ReadMember(text) == Some((key, v, "}" + rest))
    ensures ReadMembers(text) == Some((map[key := v], rest))
  {
    assert ("}" + rest)[1..] == rest;
  }

  lemma ReadMoreMembers(text: string, key: string, v: Value, tail: string,
                        fields: map<string, Value>, rest: string)
    requires ReadMember(text) == Some((key, v, "," + tail))
    requires ReadMembers(tail) == Some((fields, rest))
    ensures ReadMembers(text) == Some((fields[key := v], rest))
  {
    assert ("," + tail)[1..] == tail;
  }

  /** The printed value is read back whole, and reading stops where it ends. */
  ghost predicate ReadsBack(v: Json, rest: string) {
    ReadValue(Canon(v) + rest) == Some((Meaning(v), rest))
  }

  lemma {:induction false} ReadCanon(v: JsonValue, rest: string)
    requires EndsNumber(rest)
    ensures ReadsBack(v, rest)
    decreases v, 1, 0
  {
    match v
    case Null => ReadLiteralText(v, rest);
    case Bool(b) => ReadLiteralText(v, rest);
    case Number(token) => ReadNumberText(token, rest);
    case Str(t) => ReadStringText(t, rest);
    case Array(items) => ReadCanonArray(items, rest);
    case Object(entries) => ReadCanonObject(entries, rest);
  }

  lemma {:induction false} ReadCanonArray(items: seq<Json>, rest: string)
    requires WellFormed(Array(items))
    ensures ReadsBack(Array(items), rest)
    decreases items, 1, 0
  {
    var body := CanonItems(items) + "]" + rest;
    assert Canon(Array(items)) + rest == "[" + body;
    ReadArrayText(body);
    if items == [] {
      assert body == "]" + rest && body[1..] == rest;
    } else {
      ReadCanonItems(items, rest);
      CanonStart(items[0]);
      assert body[0] == Canon(items[0])[0];
    }
  }

  lemma {:induction false} ReadCanonObject(entries: seq<Entry>, rest: string)
    requires WellFormed(Object(entries))
    ensures ReadsBack(Object(entries), rest)
    decreases entries, 1, 0
  {
    var keys := SortedKeys(entries);
    var body := CanonMembers(keys, entries) + "}" + rest;
    assert Canon(Object(entries)) + rest == "{" + body;
    ReadObjectText(body);
    SortedMembersMeanTheObject(entries);
    if keys == [] {
      assert body == "}" + rest && body[1..] == rest;
    } else {
      ReadCanonMembers(keys, entries, rest);
      assert body[0] == CanonMember(keys[0], entries)[0] == '"';
    }
  }

  lemma {:induction false} ReadCanonItems(items: seq<Json>, rest: string)
    requires items != [] && forall i :: 0 <= i < |items| ==> WellFormed(items[i])
    ensures ReadItems(CanonItems(items) + "]" + rest) == Some((MeaningOfItems(items), rest))
    decreases items, 0, 0
  {
    var s := CanonItems(items) + "]" + rest;
    if |items| == 1 {
      Associate(Canon(items[0]), "]", rest);
      ReadCanon(items[0], "]" + rest);
      assert MeaningOfItems(items) == [Meaning(items[0])];
      assert ("]" + rest)[1..] == rest;
    } else {
      var tail := CanonItems(items[1..]) + "]" + rest;
      Separated(Canon(items[0]), ",", CanonItems(items[1..]), "]", rest);
      ReadCanon(items[0], "," + tail);
      ReadCanonItems(items[1..], rest);
      assert ("," + tail)[1..] == tail;
    }
  }

  lemma {:induction false} ReadCanonMember(key: string, entries: seq<Entry>, rest: string)
    requires WellFormed(Object(entries)) && key in KeysOf(entries) && EndsNumber(rest)
    ensures ReadMember(CanonMember(key, entries) + rest)
         == Some((key, Meaning(Lookup(entries, key)), rest))
    decreases entries, 0, 0
  {
    var v := Lookup(entries, key);
    LookupIsWellFormed(entries, key);
    ReadCanon(v, rest);
    assert CanonMember(key, entries) + rest == Quote(key) + ":" + (Canon(v) + rest);
    ReadMemberText(key, Canon(v) + rest, Meaning(v), rest);
  }

  lemma {:induction false} ReadCanonMembers(keys: seq<string>, entries: seq<Entry>, rest: string)
    requires WellFormed(Object(entries))
    requires keys != [] && forall k :: k in keys ==> k in KeysOf(entries)
    ensures ReadMembers(CanonMembers(keys, entries) + "}" + rest)
         == Some((MeaningOfMembers(keys, entries), rest))
    decreases entries, 0, 1 + |keys|
  {
    var s := CanonMembers(keys, entries) + "}" + rest;
    var m := Meaning(Lookup(entries, keys[0]));
    if |keys| == 1 {
      Associate(CanonMember(keys[0], entries), "}", rest);
      ReadCanonMember(keys[0], entries, "}" + rest);
      ReadLastMember(s, keys[0], m, rest);
      assert MeaningOfMembers(keys[1..], entries) == map[];
    } else {
      var tail := CanonMembers(keys[1..], entries) + "}" + rest;
      Separated(CanonMember(keys[0], entries), ",", CanonMembers(keys[1..], entries), "}", rest);
      ReadCanonMember(keys[0], entries, "," + tail);
      ReadCanonMembers(keys[1..], entries, rest);
      ReadMoreMembers(s, keys[0], m, tail, MeaningOfMembers(keys[1..], entries), rest);
    }
  }

  /** Decoding the canonical text gives the value back, key order aside. */
  lemma DecodeCanon(v: JsonValue)
    ensures Decode(Canon(v)) == Some(Meaning(v))
  {
    assert Canon(v) + "" == Canon(v);
    ReadCanon(v, "");
  }

  // ------------------------------------------------ equality of the printer

  lemma SameObjectSameKeys(a: seq<Entry>, b: seq<Entry>)
    requires WellFormed(Object(a)) && WellFormed(Object(b))
    requires MeaningOfEntries(a) == MeaningOfEntries(b)
    ensures SortedKeys(a) == SortedKeys(b)
  {
    forall k ensures k in KeysOf(a) <==> k in KeysOf(b) {
      MeaningOfLookup(a, k);
      MeaningOfLookup(b, k);
    }
    DistinctPermutation(KeysOf(a), KeysOf(b));
    StringOrderIsTotal();
    SortEqualIffPermutation(StringOrder(), KeysOf(a), KeysOf(b));
  }

  lemma {:induction false} SameMeaningSameText(a: JsonValue, b: JsonValue)
    requires Meaning(a) == Meaning(b)
    ensures Canon(a) == Canon(b)
    decreases a, 1, 0
  {
    match a
    case Array(items) => SameItemsSameText(items, b.items);
    case Object(entries) =>
      SameObjectSameKeys(entries, b.entries);
      SameMembersSameText(SortedKeys(entries), entries, b.entries);
    case _ =>
  }

  lemma {:induction false} SameItemsSameText(a: seq<Json>, b: seq<Json>)
    requires forall i :: 0 <= i < |a| ==> WellFormed(a[i])
    requires forall i :: 0 <= i < |b| ==> WellFormed(b[i])
    requires MeaningOfItems(a) == MeaningOfItems(b)
    ensures CanonItems(a) == CanonItems(b) && |a| == |b|
    decreases a, 0, 0
  {
    if a != [] && b != [] {
      assert MeaningOfItems(a)[0] == Meaning(a[0]) && MeaningOfItems(b)[0] == Meaning(b[0]);
      assert MeaningOfItems(a)[1..] == MeaningOfItems(a[1..]);
      assert MeaningOfItems(b)[1..] == MeaningOfItems(b[1..]);
      SameMeaningSameText(a[0], b[0]);
      SameItemsSameText(a[1..], b[1..]);
    }
  }

  lemma {:induction false} SameMembersSameText(keys: seq<string>, a: seq<Entry>, b: seq<Entry>)
    requires WellFormed(Object(a)) && WellFormed(Object(b))
    requires MeaningOfEntries(a) == MeaningOfEntries(b)
    requires forall k :: k in keys ==> k in KeysOf(a) && k in KeysOf(b)
    ensures CanonMembers(keys, a) == CanonMembers(keys, b)
    decreases a, 0, |keys|
  {
    if keys != [] {
      var k := keys[0];
      MeaningOfLookup(a, k);
      MeaningOfLookup(b, k);
      LookupIsWellFormed(a, k);
      LookupIsWellFormed(b, k);
      SameMeaningSameText(Lookup(a, k), Lookup(b, k));
      SameMembersSameText(keys[1..], a, b);
    }
  }

  /** The canonical text is equal exactly for values equal up to key order at every depth. */
  lemma CanonEqualIffSameValue(a: JsonValue, b: JsonValue)
    ensures Canon(a) == Canon(b) <==> Meaning(a) == Meaning(b)
  {
    DecodeCanon(a);
    DecodeCanon(b);
    if Meaning(a) == Meaning(b) {
      SameMeaningSameText(a, b);
    }
  }
}
