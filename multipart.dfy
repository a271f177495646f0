/**
  The multipart wire payload the form submits, as a specification: which
  (key, part) entries a form record and the two attachment selections turn into,
  and lookup by key as FormData.getAll performs it.
 */
module Multipart {
  import opened Js
  import opened FormRecord
  import opened WireKeys

  /** One part of a multipart body: a text field or a file. */
  datatype Part = Text(text: string) | Blob(file: File)

  type Entry = (WireKey, Part)

  const ProfilePhotoKey := "profile_photo"
  const DocumentsKey := "documents"
  const BackgroundCheckKey := "background_check"

  /**
    Whether the builder writes anything for the property (key, value): not for
    undefined, null, the two attachment keys, or a File.
   */
  predicate Emitted(key: string, value: Value)
  {
    value != Undefined && value != Null
    && !(key == ProfilePhotoKey || key == DocumentsKey)
    && !value.FileValue?
  }

  /** The `key[]` entries for the items of an array field, one per item, in order. */
  function ItemEntries(key: string, items: seq<string>): (es: seq<Entry>)
    ensures |es| == |items|
    ensures forall i :: 0 <= i < |items| ==> es[i] == (Item(key), Text(items[i]))
  {
    seq(|items|, i requires 0 <= i < |items| => (Item(key), Text(items[i])))
  }

  /** The text entries one property of the record turns into. */
  function FieldEntries(key: string, value: Value, numText: Number -> string): (es: seq<Entry>)
    ensures forall e :: e in es ==> e.1.Text? && (e.0 == Field(key) || e.0 == Item(key))
    ensures !Emitted(key, value) ==> es == []
  {
    if !Emitted(key, value) then []
    else if key == BackgroundCheckKey then [(Field(key), Text(if Truthy(value) then "1" else "0"))]
    else if value.Arr? then ItemEntries(key, value.items)
    else [(Field(key), Text(ToJsString(value, numText)))]
  }

  /** The text entries of the whole record, property by property in record order. */
  function TextEntries(data: Record, numText: Number -> string): (es: seq<Entry>)
    ensures forall e :: e in es ==> e.1.Text? && !e.0.Indexed? && e.0.name in Keys(data)
  {
    if data == [] then []
    else
      assert data[0].0 in Keys(data);
      assert forall k :: k in Keys(data[1..]) ==> k in Keys(data);
      FieldEntries(data[0].0, data[0].1, numText) + TextEntries(data[1..], numText)
  }

  /** The `documents[i]` entries, one per selected document, in selection order. */
  function DocumentEntries(documents: seq<File>): (es: seq<Entry>)
    ensures |es| == |documents|
    ensures forall i :: 0 <= i < |documents| ==> es[i] == (Indexed(DocumentsKey, i), Blob(documents[i]))
  {
    seq(|documents|, i requires 0 <= i < |documents| => (Indexed(DocumentsKey, i), Blob(documents[i])))
  }

  /** The entry for the selected photo, when there is one. */
  function PhotoEntries(profilePhotos: seq<File>): seq<Entry>
  {
    if profilePhotos != [] then [(Field(ProfilePhotoKey), Blob(profilePhotos[0]))] else []
  }

  /** The attachment entries: the first selected photo, if any, then every document. */
  function AttachmentEntries(profilePhotos: seq<File>, documents: seq<File>): (es: seq<Entry>)
    ensures |es| == (if profilePhotos != [] then 1 else 0) + |documents|
    ensures forall e :: e in es ==> e.1.Blob?
  {
    PhotoEntries(profilePhotos) + DocumentEntries(documents)
  }

  /** The whole payload: every field entry, then the attachments. */
  function Payload(data: Record, profilePhotos: seq<File>, documents: seq<File>, numText: Number -> string): seq<Entry>
  {
    TextEntries(data, numText) + AttachmentEntries(profilePhotos, documents)
  }

  /** FormData.getAll for a key of a known shape: the parts stored under it, in the order they were appended. */
  function GetAll(es: seq<Entry>, key: WireKey): seq<Part>
  {
    if es == [] then []
    else (if es[0].0 == key then [es[0].1] else []) + GetAll(es[1..], key)
  }

  /** FormData.getAll(text) as the browser performs it, comparing the written-out key text. */
  function GetAllByText(es: seq<Entry>, text: string): seq<Part>
  {
    if es == [] then []
    else (if KeyText(es[0].0) == text then [es[0].1] else []) + GetAllByText(es[1..], text)
  }

  /** While every name involved is a plain field name, looking up by text finds exactly what looking up by key finds. */
  lemma {:induction false} GetAllByTextAgrees(es: seq<Entry>, key: WireKey)
    requires IsPlainKey(key.name)
    requires forall e :: e in es ==> IsPlainKey(e.0.name)
    ensures GetAllByText(es, KeyText(key)) == GetAll(es, key)
  {
    if es != [] {
      assert es[0] in es;
      if KeyText(es[0].0) == KeyText(key) {
        KeyTextInjective(es[0].0, key);
      }
      assert forall e :: e in es[1..] ==> e in es;
      GetAllByTextAgrees(es[1..], key);
    }
  }

  lemma {:induction false} GetAllConcat(a: seq<Entry>, b: seq<Entry>, key: WireKey)
    ensures GetAll(a + b, key) == GetAll(a, key) + GetAll(b, key)
  {
    if a != [] {
      assert (a + b)[1..] == a[1..] + b;
      GetAllConcat(a[1..], b, key);
    } else {
      assert a + b == b;
    }
  }

  lemma {:induction false} GetAllAbsent(es: seq<Entry>, key: WireKey)
    requires forall e :: e in es ==> e.0 != key
    ensures GetAll(es, key) == []
  {
    if es != [] {
      assert es[0] in es;
      assert forall e :: e in es[1..] ==> e in es;
      GetAllAbsent(es[1..], key);
    }
  }

  lemma {:induction false} GetAllItems(key: string, items: seq<string>)
    ensures GetAll(ItemEntries(key, items), Item(key)) == seq(|items|, i requires 0 <= i < |items| => Text(items[i]))
  {
    if items != [] {
      GetAllItems(key, items[1..]);
      assert ItemEntries(key, items)[1..] == ItemEntries(key, items[1..]);
    }
  }

  lemma GetAllSingle(key: WireKey, part: Part, k: WireKey)
    ensures GetAll([(key, part)], k) == if key == k then [part] else []
  {
    assert [(key, part)][1..] == [];
  }

  /** Every key of a well-formed record is a plain field name. */
  lemma {:induction false} WellFormedKeysPlain(data: Record, k: string)
    requires WellFormed(data) && k in Keys(data)
    ensures IsPlainKey(k)
  {
    if data[0].0 != k {
      WellFormedKeysPlain(data[1..], k);
    }
  }

  /**
    Looking up a field key, or its `[]` key, in the text entries of a
    well-formed record finds exactly what that one property contributes.
   */
  lemma {:induction false} TextEntriesLookup(data: Record, k: string, numText: Number -> string)
    requires WellFormed(data)
    ensures GetAll(TextEntries(data, numText), Field(k)) == GetAll(FieldEntries(k, Get(data, k), numText), Field(k))
    ensures GetAll(TextEntries(data, numText), Item(k)) == GetAll(FieldEntries(k, Get(data, k), numText), Item(k))
  {
    if data != [] {
      var head := FieldEntries(data[0].0, data[0].1, numText);
      var rest := data[1..];
      TextEntriesLookup(rest, k, numText);
      GetAllConcat(head, TextEntries(rest, numText), Field(k));
      GetAllConcat(head, TextEntries(rest, numText), Item(k));
      if data[0].0 == k {
        assert Get(rest, k) == Undefined;
      } else {
        GetAllAbsent(head, Field(k));
        GetAllAbsent(head, Item(k));
      }
    }
  }

  /** What one property contributes under its own key and under its `[]` key. */
  lemma FieldEntriesLookup(k: string, v: Value, numText: Number -> string)
    ensures GetAll(FieldEntries(k, v, numText), Field(k))
            == if !Emitted(k, v) || (k != BackgroundCheckKey && v.Arr?) then []
               else if k == BackgroundCheckKey then [Text(if Truthy(v) then "1" else "0")]
               else [Text(ToJsString(v, numText))]
    ensures GetAll(FieldEntries(k, v, numText), Item(k))
            == if Emitted(k, v) && k != BackgroundCheckKey && v.Arr?
               then seq(|v.items|, i requires 0 <= i < |v.items| => Text(v.items[i]))
               else []
  {
    var es := FieldEntries(k, v, numText);
    if Emitted(k, v) && k != BackgroundCheckKey && v.Arr? {
      GetAllItems(k, v.items);
      GetAllAbsent(es, Field(k));
    } else if Emitted(k, v) {
      GetAllSingle(es[0].0, es[0].1, Field(k));
      GetAllSingle(es[0].0, es[0].1, Item(k));
    }
  }

  /** Looking up a field key, or its `[]` key, in the whole payload. */
  lemma PayloadLookup(data: Record, profilePhotos: seq<File>, documents: seq<File>, k: string, numText: Number -> string)
    requires WellFormed(data) && k != ProfilePhotoKey
    ensures GetAll(Payload(data, profilePhotos, documents, numText), Field(k))
            == GetAll(FieldEntries(k, Get(data, k), numText), Field(k))
    ensures GetAll(Payload(data, profilePhotos, documents, numText), Item(k))
            == GetAll(FieldEntries(k, Get(data, k), numText), Item(k))
  {
    var text := TextEntries(data, numText);
    var att := AttachmentEntries(profilePhotos, documents);
    TextEntriesLookup(data, k, numText);
    GetAllAbsent(att, Field(k));
    GetAllAbsent(att, Item(k));
    GetAllConcat(text, att, Field(k));
    GetAllConcat(text, att, Item(k));
  }

  /** Every name in the payload of a well-formed record is a plain field name. */
  lemma PayloadNamesPlain(data: Record, profilePhotos: seq<File>, documents: seq<File>, numText: Number -> string)
    requires WellFormed(data)
    ensures forall e :: e in Payload(data, profilePhotos, documents, numText) ==> IsPlainKey(e.0.name)
  {
    forall e | e in TextEntries(data, numText) ensures IsPlainKey(e.0.name) {
      WellFormedKeysPlain(data, e.0.name);
    }
    assert IsPlainKey(ProfilePhotoKey) && IsPlainKey(DocumentsKey);
  }

  /** Looking up the text of any key in the payload of a well-formed record is the same as looking up the key. */
  lemma PayloadTextLookup(data: Record, profilePhotos: seq<File>, documents: seq<File>, key: WireKey, numText: Number -> string)
    requires WellFormed(data) && IsPlainKey(key.name)
    ensures GetAllByText(Payload(data, profilePhotos, documents, numText), KeyText(key))
            == GetAll(Payload(data, profilePhotos, documents, numText), key)
  {
    PayloadNamesPlain(data, profilePhotos, documents, numText);
    GetAllByTextAgrees(Payload(data, profilePhotos, documents, numText), key);
  }

  /** A property that is undefined, null or a File is not sent at all: neither under its key nor as `key[]`. */
  lemma SkippedFieldNotSent(data: Record, profilePhotos: seq<File>, documents: seq<File>, k: string, numText: Number -> string)
    requires WellFormed(data) && k != ProfilePhotoKey
    requires Get(data, k) == Undefined || Get(data, k) == Null || Get(data, k).FileValue?
    ensures GetAll(Payload(data, profilePhotos, documents, numText), Field(k)) == []
    ensures GetAll(Payload(data, profilePhotos, documents, numText), Item(k)) == []
  {
    PayloadLookup(data, profilePhotos, documents, k, numText);
  }

  /**
    Whatever the record holds under `profile_photo` or `documents`, no text goes
    out under those keys: `profile_photo` carries only the selected photo, and
    `documents`, `documents[]` and `profile_photo[]` carry nothing.
   */
  lemma AttachmentFieldsNotSentAsText(data: Record, profilePhotos: seq<File>, documents: seq<File>, numText: Number -> string)
    requires WellFormed(data)
    ensures GetAll(Payload(data, profilePhotos, documents, numText), Field(ProfilePhotoKey))
            == if profilePhotos != [] then [Blob(profilePhotos[0])] else []
    ensures GetAll(Payload(data, profilePhotos, documents, numText), Item(ProfilePhotoKey)) == []
    ensures GetAll(Payload(data, profilePhotos, documents, numText), Field(DocumentsKey)) == []
    ensures GetAll(Payload(data, profilePhotos, documents, numText), Item(DocumentsKey)) == []
  {
    var text := TextEntries(data, numText);
    var att := AttachmentEntries(profilePhotos, documents);
    AttachmentKeyCarriesNoText(data, ProfilePhotoKey, numText);
    AttachmentKeyCarriesNoText(data, DocumentsKey, numText);
    AttachmentsUnderPlainKey(profilePhotos, documents, Field(ProfilePhotoKey));
    AttachmentsUnderPlainKey(profilePhotos, documents, Item(ProfilePhotoKey));
    AttachmentsUnderPlainKey(profilePhotos, documents, Field(DocumentsKey));
    AttachmentsUnderPlainKey(profilePhotos, documents, Item(DocumentsKey));
    GetAllConcat(text, att, Field(ProfilePhotoKey));
    GetAllConcat(text, att, Item(ProfilePhotoKey));
    GetAllConcat(text, att, Field(DocumentsKey));
    GetAllConcat(text, att, Item(DocumentsKey));
  }

  /** The two attachment keys never carry a text part, whatever the record holds under them. */
  lemma AttachmentKeyCarriesNoText(data: Record, k: string, numText: Number -> string)
    requires WellFormed(data) && (k == ProfilePhotoKey || k == DocumentsKey)
    ensures GetAll(TextEntries(data, numText), Field(k)) == []
    ensures GetAll(TextEntries(data, numText), Item(k)) == []
  {
    TextEntriesLookup(data, k, numText);
  }

  /** Under a key that is not indexed, the attachments hold only the photo, under `profile_photo`. */
  lemma AttachmentsUnderPlainKey(profilePhotos: seq<File>, documents: seq<File>, key: WireKey)
    requires !key.Indexed?
    ensures GetAll(AttachmentEntries(profilePhotos, documents), key)
            == if key == Field(ProfilePhotoKey) && profilePhotos != [] then [Blob(profilePhotos[0])] else []
  {
    var photo := PhotoEntries(profilePhotos);
    var docs := DocumentEntries(documents);
    GetAllConcat(photo, docs, key);
    GetAllAbsent(docs, key);
    if profilePhotos != [] {
      GetAllSingle(Field(ProfilePhotoKey), Blob(profilePhotos[0]), key);
    }
  }

  /**
    A present `background_check` goes out as exactly one entry under its own key:
    "1" when the value is truthy and "0" otherwise; never as `background_check[]`.
   */
  lemma BackgroundCheckEncoding(data: Record, profilePhotos: seq<File>, documents: seq<File>, numText: Number -> string)
    requires WellFormed(data)
    requires Emitted(BackgroundCheckKey, Get(data, BackgroundCheckKey))
    ensures GetAll(Payload(data, profilePhotos, documents, numText), Field(BackgroundCheckKey))
            == [Text(if Truthy(Get(data, BackgroundCheckKey)) then "1" else "0")]
    ensures GetAll(Payload(data, profilePhotos, documents, numText), Item(BackgroundCheckKey)) == []
  {
    PayloadLookup(data, profilePhotos, documents, BackgroundCheckKey, numText);
    FieldEntriesLookup(BackgroundCheckKey, Get(data, BackgroundCheckKey), numText);
  }

  /**
    An array property k with n items goes out as exactly n `k[]` entries holding
    the items in order (none for an empty array), and nothing under k itself.
   */
  lemma ArrayFieldEncoding(data: Record, profilePhotos: seq<File>, documents: seq<File>, k: string, numText: Number -> string)
    requires WellFormed(data)
    requires k != BackgroundCheckKey && k != ProfilePhotoKey && k != DocumentsKey
    requires Get(data, k).Arr?
    ensures var items := Get(data, k).items;
            GetAll(Payload(data, profilePhotos, documents, numText), Item(k))
            == seq(|items|, i requires 0 <= i < |items| => Text(items[i]))
    ensures GetAll(Payload(data, profilePhotos, documents, numText), Field(k)) == []
  {
    PayloadLookup(data, profilePhotos, documents, k, numText);
    FieldEntriesLookup(k, Get(data, k), numText);
  }

  /**
    Any other present property (a string, number or boolean) goes out as exactly
    one entry under its own key, holding String(value).
   */
  lemma ScalarFieldEncoding(data: Record, profilePhotos: seq<File>, documents: seq<File>, k: string, numText: Number -> string)
    requires WellFormed(data) && k != BackgroundCheckKey
    requires Emitted(k, Get(data, k)) && !Get(data, k).Arr?
    ensures GetAll(Payload(data, profilePhotos, documents, numText), Field(k)) == [Text(ToJsString(Get(data, k), numText))]
    ensures GetAll(Payload(data, profilePhotos, documents, numText), Item(k)) == []
  {
    PayloadLookup(data, profilePhotos, documents, k, numText);
    FieldEntriesLookup(k, Get(data, k), numText);
  }

  /** When only position i (if any) holds the key, getAll finds exactly that part. */
  lemma {:induction false} GetAllAt(es: seq<Entry>, key: WireKey, i: int)
    requires forall j :: 0 <= j < |es| && j != i ==> es[j].0 != key
    requires 0 <= i < |es| ==> es[i].0 == key
    ensures GetAll(es, key) == if 0 <= i < |es| then [es[i].1] else []
  {
    if es != [] {
      GetAllAt(es[1..], key, i - 1);
    }
  }

  /** The i-th selected document goes out exactly once, under `documents[i]`; no index past the last document is used. */
  lemma DocumentEncoding(data: Record, profilePhotos: seq<File>, documents: seq<File>, i: nat, numText: Number -> string)
    ensures GetAll(Payload(data, profilePhotos, documents, numText), Indexed(DocumentsKey, i))
            == if i < |documents| then [Blob(documents[i])] else []
  {
    var key := Indexed(DocumentsKey, i);
    var text := TextEntries(data, numText);
    var photo := PhotoEntries(profilePhotos);
    var docs := DocumentEntries(documents);
    GetAllAbsent(text, key);
    GetAllAbsent(photo, key);
    GetAllAt(docs, key, i);
    GetAllConcat(photo, docs, key);
    GetAllConcat(text, photo + docs, key);
  }

  /**
    Attachments come after all field entries: the payload is a run of text
    parts followed by a run of file parts, and there are exactly as many file
    parts as selected attachments (at most one photo, plus each document).
   */
  lemma AttachmentsFollowFields(data: Record, profilePhotos: seq<File>, documents: seq<File>, numText: Number -> string)
    ensures var p := Payload(data, profilePhotos, documents, numText);
            forall i, j :: 0 <= i < j < |p| && p[i].1.Blob? ==> p[j].1.Blob?
    ensures var p := Payload(data, profilePhotos, documents, numText);
            var n := |TextEntries(data, numText)|;
            && (forall i :: 0 <= i < n ==> p[i].1.Text?)
            && (forall i :: n <= i < |p| ==> p[i].1.Blob?)
            && |p| - n == (if profilePhotos != [] then 1 else 0) + |documents|
  {
    TextThenFiles(TextEntries(data, numText), AttachmentEntries(profilePhotos, documents));
  }

  /** Text parts followed by file parts: the split point separates the two kinds. */
  lemma TextThenFiles(text: seq<Entry>, files: seq<Entry>)
    requires forall e :: e in text ==> e.1.Text?
    requires forall e :: e in files ==> e.1.Blob?
    ensures forall i, j :: 0 <= i < j < |text + files| && (text + files)[i].1.Blob? ==> (text + files)[j].1.Blob?
    ensures forall i :: 0 <= i < |text| ==> (text + files)[i].1.Text?
    ensures forall i :: |text| <= i < |text + files| ==> (text + files)[i].1.Blob?
  {
    var p := text + files;
    forall i | 0 <= i < |text| ensures p[i].1.Text? {
      assert p[i] == text[i] && text[i] in text;
    }
    forall i | |text| <= i < |p| ensures p[i].1.Blob? {
      assert p[i] == files[i - |text|] && files[i - |text|] in files;
    }
  }

  /** With no photo and no documents selected, the payload holds only text parts: no `profile_photo` and no `documents[i]` entry. */
  lemma NoAttachmentsNoFiles(data: Record, numText: Number -> string)
    requires WellFormed(data)
    ensures forall e :: e in Payload(data, [], [], numText) ==> e.1.Text?
    ensures GetAll(Payload(data, [], [], numText), Field(ProfilePhotoKey)) == []
    ensures forall i: nat :: GetAll(Payload(data, [], [], numText), Indexed(DocumentsKey, i)) == []
  {
    assert Payload(data, [], [], numText) == TextEntries(data, numText);
    AttachmentFieldsNotSentAsText(data, [], [], numText);
    forall i: nat ensures GetAll(Payload(data, [], [], numText), Indexed(DocumentsKey, i)) == [] {
      DocumentEncoding(data, [], [], i, numText);
    }
  }
}
