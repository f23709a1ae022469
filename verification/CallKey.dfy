/** The text that identifies a tool call, and why distinct calls never share it. */
module CallKey {
  import opened Common
  import opened CanonicalJson
  import opened JsonDecoder

  const SEPARATOR: char := 0x1f as char

  /** Tool name, U+001F, canonical input. */
  function KeyOf(tool: string, input: JsonValue): string {
    tool + [SEPARATOR] + Canon(input)
  }

  predicate Printable(s: string) {
    forall i :: 0 <= i < |s| ==> s[i] >= ' '
  }

  lemma {:induction false} EscapeIsPrintable(s: string)
    ensures Printable(Escape(s))
  {
    if s != "" {
      assert Printable(EscapeChar(s[0]));
      EscapeIsPrintable(s[1..]);
    }
  }

  /** Canonical JSON never emits a control character raw, so never the separator. */
  lemma {:induction false} CanonIsPrintable(v: JsonValue)
    ensures Printable(Canon(v))
    decreases v, 1, 0
  {
    match v
    case Str(s) => EscapeIsPrintable(s);
    case Array(items) => ItemsArePrintable(items);
    case Object(entries) => MembersArePrintable(SortedKeys(entries), entries);
    case _ =>
  }

  lemma {:induction false} ItemsArePrintable(items: seq<Json>)
    requires forall i :: 0 <= i < |items| ==> WellFormed(items[i])
    ensures Printable(CanonItems(items))
    decreases items, 0, 0
  {
    if items != [] {
      CanonIsPrintable(items[0]);
      ItemsArePrintable(items[1..]);
    }
  }

  lemma {:induction false} MembersArePrintable(keys: seq<string>, entries: seq<Entry>)
    requires WellFormed(Object(entries)) && forall k :: k in keys ==> k in KeysOf(entries)
    ensures Printable(CanonMembers(keys, entries))
    decreases entries, 0, |keys|
  {
    if keys != [] {
      EscapeIsPrintable(keys[0]);
      LookupIsWellFormed(entries, keys[0]);
      CanonIsPrintable(Lookup(entries, keys[0]));
      assert Printable(CanonMember(keys[0], entries));
      MembersArePrintable(keys[1..], entries);
    }
  }

  /** Two calls share a key exactly when they name one tool and their inputs agree up to key order. */
  lemma KeyIdentifiesCall(t1: string, v1: JsonValue, t2: string, v2: JsonValue)
    ensures KeyOf(t1, v1) == KeyOf(t2, v2) <==> t1 == t2 && Meaning(v1) == Meaning(v2)
  {
    CanonEqualIffSameValue(v1, v2);
    CanonIsPrintable(v1);
    CanonIsPrintable(v2);
    if KeyOf(t1, v1) == KeyOf(t2, v2) {
      LastSeparatorSplits(SEPARATOR, t1, Canon(v1), t2, Canon(v2));
    }
  }
}
