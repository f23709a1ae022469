/** `canonical_json` as it runs: appending to one output buffer, keys collected and then sorted. */
module JsonWriter {
  import opened CanonicalJson

  /** The output buffer `canonical_json` threads through its recursion. */
  class Buffer {
    var text: string

    constructor ()
      ensures text == ""
    {
      text := "";
    }

    method Push(s: string)
      modifies this
      ensures text == old(text) + s
    {
      text := text + s;
    }
  }

  /** Appends the canonical text of `v` to the buffer, and nothing else. */
  method Write(v: Json, out: Buffer)
    modifies out
    ensures out.text == old(out.text) + Canon(v)
    decreases v, 1, 0
  {
    ghost var start := out.text;
    match v {
      case Object(entries) =>
        var keys := SortedKeys(entries);
        out.Push("{");
        WriteMembers(keys, entries, out);
        out.Push("}");
        assert out.text == start + ("{" + CanonMembers(keys, entries) + "}");
      case Array(items) =>
        out.Push("[");
        WriteItems(items, out);
        out.Push("]");
        assert out.text == start + ("[" + CanonItems(items) + "]");
      case Null => out.Push("null");
      case Bool(b) => out.Push(if b then "true" else "false");
      case Number(token) => out.Push(token);
      case Str(s) => out.Push(Quote(s));
    }
  }

  /** What is still to be written once `i` items are out, leading comma included. */
  ghost function ItemsLeft(items: seq<Json>, i: nat): string
    requires i <= |items|
  {
    (if 0 < i < |items| then "," else "") + CanonItems(items[i..])
  }

  lemma ItemsSplit(items: seq<Json>, i: nat)
    requires i < |items|
    ensures CanonItems(items[i..]) == Canon(items[i]) + ItemsLeft(items, i + 1)
  {
    var tail := items[i..];
    assert tail[0] == items[i] && tail[1..] == items[i + 1..];
    if i + 1 == |items| {
      assert CanonItems(items[i + 1..]) == "";
    }
  }

  lemma ItemsLeftStep(text: string, items: seq<Json>, i: nat)
    requires i < |items|
    ensures text + ItemsLeft(items, i)
         == text + (if i > 0 then "," else "") + Canon(items[i]) + ItemsLeft(items, i + 1)
  {
    ItemsSplit(items, i);
  }

  method WriteItems(items: seq<Json>, out: Buffer)
    modifies out
    ensures out.text == old(out.text) + CanonItems(items)
    decreases items, 0, 0
  {
    ghost var whole := out.text + CanonItems(items);
    assert items[0..] == items && ItemsLeft(items, 0) == CanonItems(items);
    for i := 0 to |items|
      invariant out.text + ItemsLeft(items, i) == whole
    {
      ItemsLeftStep(out.text, items, i);
      if i > 0 {
        out.Push(",");
      }
      Write(items[i], out);
    }
    assert ItemsLeft(items, |items|) == "";
  }

  method WriteMember(key: string, entries: seq<Entry>, out: Buffer)
    requires key in KeysOf(entries)
    modifies out
    ensures out.text == old(out.text) + CanonMember(key, entries)
    decreases entries, 0, 0
  {
    ghost var start := out.text;
    out.Push(Quote(key));
    out.Push(":");
    Write(Lookup(entries, key), out);
    assert out.text == start + CanonMember(key, entries);
  }

  /** What is still to be written once `i` members are out, leading comma included. */
  ghost function MembersLeft(keys: seq<string>, i: nat, entries: seq<Entry>): string
    requires i <= |keys| && forall k :: k in keys ==> k in KeysOf(entries)
  {
    (if 0 < i < |keys| then "," else "") + CanonMembers(keys[i..], entries)
  }

  lemma MembersSplit(keys: seq<string>, i: nat, entries: seq<Entry>)
    requires i < |keys| && forall k :: k in keys ==> k in KeysOf(entries)
    ensures CanonMembers(keys[i..], entries) == CanonMember(keys[i], entries) + MembersLeft(keys, i + 1, entries)
  {
    var tail := keys[i..];
    assert tail[0] == keys[i] && tail[1..] == keys[i + 1..];
    if i + 1 == |keys| {
      assert CanonMembers(keys[i + 1..], entries) == "";
    }
  }

  lemma MembersLeftStep(text: string, keys: seq<string>, i: nat, entries: seq<Entry>)
    requires i < |keys| && forall k :: k in keys ==> k in KeysOf(entries)
    ensures text + MembersLeft(keys, i, entries)
         == text + (if i > 0 then "," else "") + CanonMember(keys[i], entries)
            + MembersLeft(keys, i + 1, entries)
  {
    MembersSplit(keys, i, entries);
  }

  method WriteMembers(keys: seq<string>, entries: seq<Entry>, out: Buffer)
    requires forall k :: k in keys ==> k in KeysOf(entries)
    modifies out
    ensures out.text == old(out.text) + CanonMembers(keys, entries)
    decreases entries, 1, 0
  {
    ghost var whole := out.text + CanonMembers(keys, entries);
    assert keys[0..] == keys && MembersLeft(keys, 0, entries) == CanonMembers(keys, entries);
    for i := 0 to |keys|
      invariant out.text + MembersLeft(keys, i, entries) == whole
    {
      MembersLeftStep(out.text, keys, i, entries);
      out.Push(if i > 0 then "," else "");
      WriteMember(keys[i], entries, out);
    }
    assert MembersLeft(keys, |keys|, entries) == "";
  }

  method CanonicalText(v: Json) returns (text: string)
    ensures text == Canon(v)
  {
    var out := new Buffer();
    Write(v, out);
    text := out.text;
    assert "" + Canon(v) == Canon(v);
  }
}
