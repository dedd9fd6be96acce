/** Which value of a source mapping a field is read from (extraction_service.py, _lookup and _record_from_mapping). */
module Sources {
  import opened Wrappers
  import opened Extractor

  // Names

  /** The part stands somewhere in the text. */
  ghost predicate Occurs(s: string, part: string) { exists before, after :: s == before + part + after }

  lemma {:induction false} ContainsIs(s: string, part: string)
    ensures Contains(s, part) <==> Occurs(s, part)
  {
    if part <= s {
      assert s == "" + part + s[|part|..];
    } else {
      if s != "" {
        ContainsIs(s[1..], part);
        if Contains(s[1..], part) {
          var before, after :| s[1..] == before + part + after;
          assert s == ([s[0]] + before) + part + after;
        }
      }
      if Occurs(s, part) {
        var before, after :| s == before + part + after;
        assert "" + part + after == part + after && part <= part + after;
        assert s[1..] == before[1..] + part + after;
      }
    }
  }

  /** `t` is `s` without its at signs. */
  ghost predicate AtsDropped(s: string, t: string) {
    if s == "" then t == ""
    else if s[0] == '@' then AtsDropped(s[1..], t)
    else t != "" && t[0] == s[0] && AtsDropped(s[1..], t[1..])
  }

  lemma {:induction false} WithoutAtDrops(s: string)
    ensures AtsDropped(s, WithoutAt(s))
  {
    if s != "" { WithoutAtDrops(s[1..]); }
  }

  /** A text is a part of the key, in lower case and at signs aside. */
  ghost predicate NamedBy(lib: Library, alias: string, key: string) {
    exists plain :: AtsDropped(lib.lower(key), plain) && Occurs(plain, lib.lower(alias))
  }

  /** The name, the label or an alias of the field names the key. */
  ghost predicate KeyNames(lib: Library, f: PlanField, key: string) {
    exists a :: (a == f.name || a == f.labelText || a in f.aliases) && a != "" && NamedBy(lib, a, key)
  }

  lemma {:induction false} DroppedIsUnique(s: string, t: string, u: string)
    requires AtsDropped(s, t) && AtsDropped(s, u)
    ensures t == u
  {
    if s != "" {
      if s[0] == '@' {
        DroppedIsUnique(s[1..], t, u);
      } else {
        DroppedIsUnique(s[1..], t[1..], u[1..]);
        assert t == [t[0]] + t[1..] && u == [u[0]] + u[1..];
      }
    }
  }

  lemma NamedByIs(lib: Library, alias: string, key: string)
    ensures NamedBy(lib, alias, key) <==> Contains(WithoutAt(lib.lower(key)), lib.lower(alias))
  {
    hide Contains, Occurs;
    var plain := WithoutAt(lib.lower(key));
    WithoutAtDrops(lib.lower(key));
    ContainsIs(plain, lib.lower(alias));
    if other :| AtsDropped(lib.lower(key), other) && Occurs(other, lib.lower(alias)) {
      DroppedIsUnique(lib.lower(key), plain, other);
    }
  }

  lemma NamesIs(lib: Library, f: PlanField, key: string)
    ensures Names(lib, Aliases(lib, f), key) <==> KeyNames(lib, f, key)
  {
    hide Contains, NamedBy, WithoutAt;
    if Names(lib, Aliases(lib, f), key) {
      var alias :| alias in Aliases(lib, f) && Contains(WithoutAt(lib.lower(key)), alias);
      var a :| a in [f.name, f.labelText] + f.aliases && a != "" && lib.lower(a) == alias;
      NamedByIs(lib, a, key);
    }
    if a :| (a == f.name || a == f.labelText || a in f.aliases) && a != "" && NamedBy(lib, a, key) {
      NamedByIs(lib, a, key);
      assert a in [f.name, f.labelText] + f.aliases by {
        var all := [f.name, f.labelText] + f.aliases;
        assert all[0] == f.name && all[1] == f.labelText;
      }
      assert lib.lower(a) in Aliases(lib, f);
    }
  }

  // Looking up

  /** No key of an object anywhere in the value names the field. */
  ghost predicate Silent(lib: Library, f: PlanField, j: Json)
    decreases j
  {
    match j
    case JObject(entries) => forall e <- entries :: !KeyNames(lib, f, e.key) && Silent(lib, f, e.value)
    case JArray(items) => forall i <- items :: i.JObject? ==> Silent(lib, f, i)
    case _ => true
  }

  lemma {:induction false} SilentEntries(lib: Library, f: PlanField, entries: seq<Entry>)
    requires forall e <- entries :: !KeyNames(lib, f, e.key) && Silent(lib, f, e.value)
    ensures Lookup(lib, Aliases(lib, f), entries) == JNull
    decreases entries
  {
    hide Names, Aliases, KeyNames, Unwrap;
    if entries != [] {
      NamesIs(lib, f, entries[0].key);
      var value := entries[0].value;
      if value.JObject? { SilentEntries(lib, f, value.entries); }
      if value.JArray? { SilentItems(lib, f, value.items); }
      SilentEntries(lib, f, entries[1..]);
    }
  }

  lemma {:induction false} SilentItems(lib: Library, f: PlanField, items: seq<Json>)
    requires forall i <- items :: i.JObject? ==> Silent(lib, f, i)
    ensures LookupItems(lib, Aliases(lib, f), items) == JNull
    decreases items
  {
    hide Names, Aliases, KeyNames, Unwrap;
    if items != [] {
      if items[0].JObject? { SilentEntries(lib, f, items[0].entries); }
      SilentItems(lib, f, items[1..]);
    }
  }

  /** An entry whose key names the field is used, when nothing before it names the field at any depth. */
  lemma {:induction false} FirstNamed(lib: Library, f: PlanField, source: seq<Entry>, k: nat)
    requires k < |source| && KeyNames(lib, f, source[k].key)
    requires forall i :: 0 <= i < k ==> !KeyNames(lib, f, source[i].key) && Silent(lib, f, source[i].value)
    ensures Lookup(lib, Aliases(lib, f), source) == Unwrap(source[k].value)
    decreases k
  {
    hide Names, Aliases, KeyNames, Unwrap;
    NamesIs(lib, f, source[0].key);
    if k > 0 {
      var value := source[0].value;
      if value.JObject? { SilentEntries(lib, f, value.entries); }
      if value.JArray? { SilentItems(lib, f, value.items); }
      FirstNamed(lib, f, source[1..], k - 1);
    }
  }

  /** The value at the first entry with this key. */
  ghost predicate Has(entries: seq<Entry>, key: string, value: Json) {
    exists k: nat :: IsAt(entries, key, k) && entries[k].value == value
  }

  ghost predicate Lacks(entries: seq<Entry>, key: string) { forall e <- entries :: e.key != key }

  /** An object stands for its price, value, name or url, the first of these that it has, and else for itself. */
  lemma UnwrapExactly(entries: seq<Entry>, value: Json)
    ensures Has(entries, "price", value) ==> Unwrap(JObject(entries)) == value
    ensures Lacks(entries, "price") ==>
              && (Has(entries, "value", value) ==> Unwrap(JObject(entries)) == value)
              && (Lacks(entries, "value") ==>
                    && (Has(entries, "name", value) ==> Unwrap(JObject(entries)) == value)
                    && (Lacks(entries, "name") ==>
                          && (Has(entries, "url", value) ==> Unwrap(JObject(entries)) == value)
                          && (Lacks(entries, "url") ==> Unwrap(JObject(entries)) == JObject(entries))))
  {
    hide Get;
    HasIs(entries, "price", value);
    HasIs(entries, "value", value);
    HasIs(entries, "name", value);
    HasIs(entries, "url", value);
  }

  lemma HasIs(entries: seq<Entry>, key: string, value: Json)
    ensures HasEntry(entries, key) <==> !Lacks(entries, key)
    ensures Has(entries, key, value) ==> HasEntry(entries, key) && Get(entries, key) == value
  {
    hide Get;
    if Has(entries, key, value) {
      var k: nat :| IsAt(entries, key, k) && entries[k].value == value;
      GetsFirst(entries, key, k);
    }
  }

  // One field of a table row, a block or a page

  /** A mapping of texts: what tables, repeated blocks and open-graph data give. */
  ghost predicate Texts(source: seq<Entry>) { forall e <- source :: e.value.JString? }

  /** The first entry with this key, if any. */
  ghost predicate IsAt(source: seq<Entry>, key: string, k: nat) {
    k < |source| && source[k].key == key && forall i :: 0 <= i < k ==> source[i].key != key
  }

  lemma {:induction false} GetsFirst(source: seq<Entry>, key: string, k: nat)
    requires IsAt(source, key, k)
    ensures Get(source, key) == source[k].value
    decreases k
  {
    if k > 0 { GetsFirst(source[1..], key, k - 1); }
  }

  lemma {:induction false} GetsNothing(source: seq<Entry>, key: string)
    requires forall e <- source :: e.key != key
    ensures Get(source, key) == JNull
  {
    if source != [] { GetsNothing(source[1..], key); }
  }

  /** The key that a field falls back on. */
  function Fallback(t: FieldType): Option<string> {
    if t == StringType || t == TextType then Some("text") else if t == UrlType then Some("url") else None
  }

  ghost predicate NamedFirst(lib: Library, f: PlanField, source: seq<Entry>, k: nat) {
    && k < |source| && KeyNames(lib, f, source[k].key)
    && forall i :: 0 <= i < k ==> !KeyNames(lib, f, source[i].key)
  }

  /** No key of the mapping names the field. */
  ghost predicate Unnamed(lib: Library, f: PlanField, source: seq<Entry>) {
    forall e <- source :: !KeyNames(lib, f, e.key)
  }

  lemma FallsBack(lib: Library, f: PlanField, source: seq<Entry>)
    requires Texts(source) && Unnamed(lib, f, source)
    ensures RawValue(lib, f, source) ==
            match Fallback(f.fieldType)
            case None => JNull
            case Some(key) =>
              if Truthy(Get(source, key)) then JString(Show(lib, Get(source, key))) else JNull
  {
    hide KeyNames, Lookup, Aliases, Get, Show, Truthy;
    SilentEntries(lib, f, source);
  }

  lemma TextAt(source: seq<Entry>, k: nat)
    requires Texts(source) && k < |source|
    ensures source[k].value.JString? && source[k].value == JString(source[k].value.s)
  {
    assert source[k] in source;
  }

  /**
   * The raw value of a field in a mapping of texts is that of the first entry whose key names the field. Without one, a
   * string or text field takes the mapping's own text and a link field its own link, if there is one and it is not
   * empty; otherwise the field has no value.
   */
  lemma FieldIsRead(lib: Library, f: PlanField, source: seq<Entry>)
    requires Texts(source)
    ensures forall k: nat :: NamedFirst(lib, f, source, k) ==> RawValue(lib, f, source) == source[k].value
    ensures Unnamed(lib, f, source) ==>
              match Fallback(f.fieldType)
              case None => RawValue(lib, f, source) == JNull
              case Some(key) =>
                && (forall k: nat :: IsAt(source, key, k) ==>
                      source[k].value.JString?
                      && RawValue(lib, f, source) == if source[k].value.s != "" then source[k].value else JNull)
                && ((forall e <- source :: e.key != key) ==> RawValue(lib, f, source) == JNull)
  {
    hide KeyNames, RawValue, Get;
    forall k: nat | NamedFirst(lib, f, source, k)
      ensures RawValue(lib, f, source) == source[k].value
    {
      NamedIsRead(lib, f, source, k);
    }
    if Unnamed(lib, f, source) {
      hide Unnamed;
      FallsBack(lib, f, source);
      if Fallback(f.fieldType).Some? {
        var key := Fallback(f.fieldType).value;
        forall k: nat | IsAt(source, key, k)
          ensures source[k].value.JString?
          ensures RawValue(lib, f, source) == if source[k].value.s != "" then source[k].value else JNull
        {
          GetsFirst(source, key, k);
          TextAt(source, k);
        }
        if forall e <- source :: e.key != key { GetsNothing(source, key); }
      }
    }
  }

  lemma NamedIsRead(lib: Library, f: PlanField, source: seq<Entry>, k: nat)
    requires Texts(source) && NamedFirst(lib, f, source, k)
    ensures RawValue(lib, f, source) == source[k].value
  {
    hide KeyNames, Lookup, Aliases, Get;
    FirstNamed(lib, f, source, k);
    TextAt(source, k);
  }
}
