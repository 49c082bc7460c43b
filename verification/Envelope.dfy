/** The strict segment envelope a provider must return for a batch. */
module Envelope {
  import opened Text
  import opened Options

  datatype Json = Object(fields: seq<Field>) | Array(items: seq<Json>) | Str(s: string) | Other
  datatype Field = Field(key: string, value: Json)

  const PROTOCOL := "cwa-translate-segments/v1"

  predicate DistinctStrings(s: seq<string>) {
    forall i, j :: 0 <= i < j < |s| ==> s[i] != s[j]
  }

  function Keys(fields: seq<Field>): (keys: seq<string>) {
    seq(|fields|, i requires 0 <= i < |fields| => fields[i].key)
  }

  /** `_reject_duplicate_json_keys`, which sees every object of the document. */
  predicate NoDuplicateKeys(j: Json) {
    match j
    case Object(fields) =>
      DistinctStrings(Keys(fields)) && forall i :: 0 <= i < |fields| ==> NoDuplicateKeys(fields[i].value)
    case Array(items) => forall i :: 0 <= i < |items| ==> NoDuplicateKeys(items[i])
    case _ => true
  }

  /** The object has exactly the two keys; returns their values. */
  function TwoFields(j: Json, a: string, b: string): (r: Option<(Json, Json)>) {
    if !j.Object? || |j.fields| != 2 then None
    else if j.fields[0].key == a && j.fields[1].key == b then Some((j.fields[0].value, j.fields[1].value))
    else if j.fields[0].key == b && j.fields[1].key == a then Some((j.fields[1].value, j.fields[0].value))
    else None
  }

  /** The stripped text of one translation, if it is the one expected. */
  function ItemText(item: Json, id: string): (r: Option<string>) {
    match TwoFields(item, "id", "text")
    case None => None
    case Some((i, t)) =>
      if i == Str(id) && t.Str? && Strip(t.s) != [] then Some(Strip(t.s)) else None
  }

  /** The loop over expected ids and translations, with the running byte count. */
  function ParseItems(items: seq<Json>, ids: seq<string>, cap: nat): (r: Option<seq<string>>)
    requires |items| == |ids|
    ensures r.Some? ==> |r.value| == |ids|
  {
    if items == [] then Some([])
    else
      var last := |items| - 1;
      match ParseItems(items[..last], ids[..last], cap)
      case None => None
      case Some(before) =>
        match ItemText(items[last], ids[last])
        case None => None
        case Some(text) =>
          if TotalBytes(before + [text]) > cap then None else Some(before + [text])
  }

  function TotalBytes(texts: seq<string>): nat {
    if texts == [] then 0 else TotalBytes(texts[..|texts| - 1]) + Utf8Size(texts[|texts| - 1])
  }

  /** `_parse_segment_envelope` on a document of `size` bytes; `None` for the
      body is output that is not JSON. */
  function Parse(body: Option<Json>, size: nat, ids: seq<string>, cap: nat): (r: Option<seq<string>>)
    ensures r.Some? ==> |r.value| == |ids|
  {
    if size > cap || body.None? || !NoDuplicateKeys(body.value) || !DistinctStrings(ids) then None
    else
      match TwoFields(body.value, "protocol", "translations")
      case None => None
      case Some((protocol, translations)) =>
        if protocol != Str(PROTOCOL) || !translations.Array? || |translations.items| != |ids| then None
        else ParseItems(translations.items, ids, cap)
  }

  /** Accepting means the ids match position by position. */
  lemma {:induction false} ParseItemsMeans(items: seq<Json>, ids: seq<string>, cap: nat)
    requires |items| == |ids|
    ensures ParseItems(items, ids, cap).Some? <==>
            && (forall i :: 0 <= i < |items| ==> ItemText(items[i], ids[i]).Some?)
            && TotalBytes(Texts(items, ids)) <= cap
    ensures ParseItems(items, ids, cap).Some? ==> ParseItems(items, ids, cap).value == Texts(items, ids)
  {
    hide ItemText, TotalBytes, TextOr;
    if items == [] {
      TotalOfNone();
      assert Texts(items, ids) == [];
    } else {
      var last := |items| - 1;
      ParseItemsMeans(items[..last], ids[..last], cap);
      var shorter := Texts(items[..last], ids[..last]);
      var text := TextOr(items[last], ids[last]);
      assert Texts(items, ids) == shorter + [text];
      TotalSnoc(shorter, text);
      TextOrMeans(items[last], ids[last]);
    }
  }

  lemma TotalOfNone()
    ensures TotalBytes([]) == 0
  {
  }

  lemma TotalSnoc(texts: seq<string>, text: string)
    ensures TotalBytes(texts + [text]) == TotalBytes(texts) + Utf8Size(text)
  {
    assert (texts + [text])[..|texts|] == texts;
  }

  lemma TextOrMeans(item: Json, id: string)
    ensures ItemText(item, id).Some? ==> TextOr(item, id) == ItemText(item, id).value
  {
  }

  function TextOr(item: Json, id: string): string {
    match ItemText(item, id) case Some(t) => t case None => []
  }

  function Texts(items: seq<Json>, ids: seq<string>): (ts: seq<string>)
    requires |items| == |ids|
  {
    seq(|items|, i requires 0 <= i < |items| => TextOr(items[i], ids[i]))
  }

  // ---- the accepted documents ----

  /** The object has the two fields and nothing else, in either order. */
  lemma TwoFieldsMeans(j: Json, a: string, b: string, x: Json, y: Json)
    requires a != b
    ensures TwoFields(j, a, b) == Some((x, y)) <==>
            j == Object([Field(a, x), Field(b, y)]) || j == Object([Field(b, y), Field(a, x)])
  {
    if j.Object? && |j.fields| == 2 {
      assert j.fields == [j.fields[0], j.fields[1]];
    }
  }

  lemma ItemTextMeans(item: Json, id: string, text: string)
    ensures ItemText(item, id) == Some(text) <==>
            && text != []
            && exists s :: Strip(s) == text
                 && (item == Object([Field("id", Str(id)), Field("text", Str(s))])
                     || item == Object([Field("text", Str(s)), Field("id", Str(id))]))
  {
    hide Strip;
    assert "id" != "text" by { assert "id"[0] != "text"[0]; }
    if ItemText(item, id) == Some(text) {
      var (i, t) := TwoFields(item, "id", "text").value;
      TwoFieldsMeans(item, "id", "text", i, t);
      assert Strip(t.s) == text && i == Str(id) && t == Str(t.s);
    }
    if s :| Strip(s) == text && text != []
            && (item == Object([Field("id", Str(id)), Field("text", Str(s))])
                || item == Object([Field("text", Str(s)), Field("id", Str(id))])) {
      TwoFieldsMeans(item, "id", "text", Str(id), Str(s));
    }
  }

  /** Two members of different names, neither with an object inside that repeats a name. */
  lemma NoDuplicates(j: Json, a: string, b: string, x: Json, y: Json)
    requires a != b && NoDuplicateKeys(x) && NoDuplicateKeys(y)
    requires j == Object([Field(a, x), Field(b, y)]) || j == Object([Field(b, y), Field(a, x)])
    ensures NoDuplicateKeys(j)
  {
    assert |j.fields| == 2;
    assert Keys(j.fields)[0] == j.fields[0].key && Keys(j.fields)[1] == j.fields[1].key;
  }

  lemma ItemHasNoDuplicates(item: Json, id: string)
    requires ItemText(item, id).Some?
    ensures NoDuplicateKeys(item)
  {
    hide Strip;
    assert "id" != "text" by { assert "id"[0] != "text"[0]; }
    var (i, t) := TwoFields(item, "id", "text").value;
    TwoFieldsMeans(item, "id", "text", i, t);
    NoDuplicates(item, "id", "text", i, t);
  }

  /** The protocol's object over these items. */
  predicate Wraps(body: Json, items: seq<Json>) {
    || body == Object([Field("protocol", Str("cwa-translate-segments/v1")), Field("translations", Array(items))])
    || body == Object([Field("translations", Array(items)), Field("protocol", Str("cwa-translate-segments/v1"))])
  }

  predicate ItemsMatch(items: seq<Json>, ids: seq<string>, texts: seq<string>)
    requires |texts| == |ids|
  {
    |items| == |ids| && forall i :: 0 <= i < |ids| ==> ItemText(items[i], ids[i]) == Some(texts[i])
  }

  lemma Wrapped(body: Json, protocol: Json, translations: Json)
    ensures TwoFields(body, "protocol", "translations") == Some((protocol, translations))
            && protocol == Str(PROTOCOL) && translations.Array? <==>
            translations.Array? && Wraps(body, translations.items) && protocol == Str(PROTOCOL)
  {
    assert "protocol" != "translations" by { assert "protocol"[0] != "translations"[0]; }
    TwoFieldsMeans(body, "protocol", "translations", protocol, translations);
  }

  lemma WrappedHasNoDuplicates(body: Json, items: seq<Json>, ids: seq<string>, texts: seq<string>)
    requires |texts| == |ids| && Wraps(body, items) && ItemsMatch(items, ids, texts)
    ensures NoDuplicateKeys(body)
  {
    hide ItemText;
    assert "protocol" != "translations" by { assert "protocol"[0] != "translations"[0]; }
    forall i | 0 <= i < |items| ensures NoDuplicateKeys(items[i]) {
      ItemHasNoDuplicates(items[i], ids[i]);
    }
    assert NoDuplicateKeys(Array(items));
    NoDuplicates(body, "protocol", "translations", Str(PROTOCOL), Array(items));
  }

  lemma ItemsMatchMeans(items: seq<Json>, ids: seq<string>, cap: nat, texts: seq<string>)
    requires |texts| == |ids| == |items|
    ensures ParseItems(items, ids, cap) == Some(texts) <==> ItemsMatch(items, ids, texts) && TotalBytes(texts) <= cap
  {
    hide ItemText, TotalBytes, ParseItems;
    ParseItemsMeans(items, ids, cap);
    if forall i :: 0 <= i < |items| ==> ItemText(items[i], ids[i]).Some? {
      if Texts(items, ids) == texts {
        forall i | 0 <= i < |ids| ensures ItemText(items[i], ids[i]) == Some(texts[i]) {
          assert texts[i] == Texts(items, ids)[i];
        }
      }
      if ItemsMatch(items, ids, texts) {
        assert Texts(items, ids) == texts;
      }
    }
  }

  /** A document is accepted exactly when it fits and is the protocol's object over
      one object per id, in the order of the ids, each with that id and a text that is
      not blank; the result is the stripped texts, which must fit too. */
  lemma ParseMeans(body: Json, size: nat, ids: seq<string>, cap: nat, texts: seq<string>)
    requires |texts| == |ids|
    ensures Parse(Some(body), size, ids, cap) == Some(texts) <==>
            && size <= cap
            && (forall i, j :: 0 <= i < j < |ids| ==> ids[i] != ids[j])
            && TotalBytes(texts) <= cap
            && exists items: seq<Json> ::
                 && (|| body == Object([Field("protocol", Str("cwa-translate-segments/v1")),
                                        Field("translations", Array(items))])
                     || body == Object([Field("translations", Array(items)),
                                        Field("protocol", Str("cwa-translate-segments/v1"))]))
                 && |items| == |ids|
                 && forall i :: 0 <= i < |ids| ==> ItemText(items[i], ids[i]) == Some(texts[i])
  {
    hide *;
    if Parse(Some(body), size, ids, cap) == Some(texts) {
      var items := Unwrap(body, size, ids, cap, texts);
      SpellWraps(body, items, ids, texts);
    }
    if size <= cap && TotalBytes(texts) <= cap && forall i, j :: 0 <= i < j < |ids| ==> ids[i] != ids[j] {
      if items: seq<Json> :|
          && (|| body == Object([Field("protocol", Str("cwa-translate-segments/v1")),
                                 Field("translations", Array(items))])
              || body == Object([Field("translations", Array(items)),
                                 Field("protocol", Str("cwa-translate-segments/v1"))]))
          && |items| == |ids|
          && forall i :: 0 <= i < |ids| ==> ItemText(items[i], ids[i]) == Some(texts[i])
      {
        SpellWraps(body, items, ids, texts);
        WrappedParses(body, items, size, ids, cap, texts);
      }
    }
  }

  lemma SpellWraps(body: Json, items: seq<Json>, ids: seq<string>, texts: seq<string>)
    requires |texts| == |ids|
    ensures Wraps(body, items) <==>
            || body == Object([Field("protocol", Str("cwa-translate-segments/v1")),
                               Field("translations", Array(items))])
            || body == Object([Field("translations", Array(items)),
                               Field("protocol", Str("cwa-translate-segments/v1"))])
    ensures ItemsMatch(items, ids, texts) <==>
            |items| == |ids| && forall i :: 0 <= i < |ids| ==> ItemText(items[i], ids[i]) == Some(texts[i])
  {
    hide ItemText;
  }

  lemma Unwrap(body: Json, size: nat, ids: seq<string>, cap: nat, texts: seq<string>) returns (items: seq<Json>)
    requires |texts| == |ids| && Parse(Some(body), size, ids, cap) == Some(texts)
    ensures size <= cap && TotalBytes(texts) <= cap
    ensures forall i, j :: 0 <= i < j < |ids| ==> ids[i] != ids[j]
    ensures Wraps(body, items) && ItemsMatch(items, ids, texts)
  {
    hide ItemText, TotalBytes, ParseItems, NoDuplicateKeys, TwoFields, Wraps;
    var (protocol, translations) := TwoFields(body, "protocol", "translations").value;
    Wrapped(body, protocol, translations);
    items := translations.items;
    ItemsMatchMeans(items, ids, cap, texts);
  }

  lemma WrappedParses(body: Json, items: seq<Json>, size: nat, ids: seq<string>, cap: nat, texts: seq<string>)
    requires |texts| == |ids| && size <= cap && TotalBytes(texts) <= cap
    requires forall i, j :: 0 <= i < j < |ids| ==> ids[i] != ids[j]
    requires Wraps(body, items) && ItemsMatch(items, ids, texts)
    ensures Parse(Some(body), size, ids, cap) == Some(texts)
  {
    hide ItemText, TotalBytes, ParseItems, NoDuplicateKeys, TwoFields, Wraps;
    Wrapped(body, Str(PROTOCOL), Array(items));
    WrappedHasNoDuplicates(body, items, ids, texts);
    ItemsMatchMeans(items, ids, cap, texts);
  }

  // ---- the round trip ----

  function EncodeItem(id: string, text: string): (j: Json) {
    Object([Field("id", Str(id))] + [Field("text", Str(text))])
  }

  /** The answer a provider following the protocol gives. */
  function Encode(ids: seq<string>, texts: seq<string>): (j: Json)
    requires |ids| == |texts|
  {
    Object([Field("protocol", Str(PROTOCOL))]
           + [Field("translations", Array(seq(|ids|, i requires 0 <= i < |ids| => EncodeItem(ids[i], texts[i]))))])
  }

  function Stripped(texts: seq<string>): (ts: seq<string>) {
    seq(|texts|, i requires 0 <= i < |texts| => Strip(texts[i]))
  }

  lemma EncodedItem(id: string, text: string)
    ensures NoDuplicateKeys(EncodeItem(id, text))
    ensures ItemText(EncodeItem(id, text), id) == if Strip(text) != [] then Some(Strip(text)) else None
  {
    hide Strip;
    var j := EncodeItem(id, text);
    assert j.fields[0] == Field("id", Str(id)) && j.fields[1] == Field("text", Str(text));
  }

  lemma EncodedFields(ids: seq<string>, texts: seq<string>)
    requires |ids| == |texts|
    ensures NoDuplicateKeys(Encode(ids, texts))
    ensures
      var items := seq(|ids|, i requires 0 <= i < |ids| => EncodeItem(ids[i], texts[i]));
      TwoFields(Encode(ids, texts), "protocol", "translations") == Some((Str(PROTOCOL), Array(items)))
  {
    hide EncodeItem;
    var items := seq(|ids|, i requires 0 <= i < |ids| => EncodeItem(ids[i], texts[i]));
    var j := Encode(ids, texts);
    assert j.fields[0] == Field("protocol", Str(PROTOCOL));
    assert j.fields[1] == Field("translations", Array(items));
    forall i | 0 <= i < |items| ensures NoDuplicateKeys(items[i]) {
      EncodedItem(ids[i], texts[i]);
    }
  }

  /** An answer that follows the protocol is accepted, with its texts in order,
      exactly when every text is non-blank and both sizes are within the cap. */
  lemma RoundTrip(ids: seq<string>, texts: seq<string>, size: nat, cap: nat)
    requires |ids| == |texts| && DistinctStrings(ids)
    ensures
      Parse(Some(Encode(ids, texts)), size, ids, cap) ==
      if size <= cap && (forall i :: 0 <= i < |texts| ==> Strip(texts[i]) != [])
         && TotalBytes(Stripped(texts)) <= cap
      then Some(Stripped(texts)) else None
  {
    var items := seq(|ids|, i requires 0 <= i < |ids| => EncodeItem(ids[i], texts[i]));
    EncodedFields(ids, texts);
    EncodedItems(items, ids, texts, cap);
    hide Encode, EncodeItem, TwoFields, NoDuplicateKeys, ParseItems, Strip, TotalBytes, Stripped;
  }

  lemma EncodedItems(items: seq<Json>, ids: seq<string>, texts: seq<string>, cap: nat)
    requires |items| == |ids| == |texts|
    requires forall i :: 0 <= i < |ids| ==> items[i] == EncodeItem(ids[i], texts[i])
    ensures ParseItems(items, ids, cap) ==
            if (forall i :: 0 <= i < |texts| ==> Strip(texts[i]) != []) && TotalBytes(Stripped(texts)) <= cap
            then Some(Stripped(texts)) else None
  {
    forall i | 0 <= i < |ids|
      ensures ItemText(items[i], ids[i]) == if Strip(texts[i]) != [] then Some(Strip(texts[i])) else None
    {
      EncodedItem(ids[i], texts[i]);
    }
    ParseItemsMeans(items, ids, cap);
    hide EncodeItem, ItemText, ParseItems, Strip, TotalBytes;
    if forall i :: 0 <= i < |texts| ==> Strip(texts[i]) != [] {
      assert Texts(items, ids) == Stripped(texts);
    }
  }
}
