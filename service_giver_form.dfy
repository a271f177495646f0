/**
  The create/edit form component: the attachment selections it keeps as
  state, the handlers that replace them, and onSubmit's construction of the
  multipart body, appended entry by entry into a growing buffer.
 */
module ServiceGiverForm {
  import opened Js
  import opened FormRecord
  import opened WireKeys
  import opened Multipart
  import opened Attachments
  import opened EditPatch

  /** Which request a submission makes. */
  datatype Target = Create | Update(id: Value)

  /**
    `isEditMode && initialData?.id`: an update only in edit mode and only when
    the record's id is truthy; everything else, including edit mode with a
    missing or zero id, posts a create.
   */
  function SubmitTarget(isEditMode: bool, id: Value): (t: Target)
    ensures t.Update? <==> isEditMode && Truthy(id)
    ensures t.Update? ==> t.id == id
  {
    if isEditMode && Truthy(id) then Update(id) else Create
  }

  class Form {
    /** The selected profile photo, kept as a list as the component does. */
    var profilePhotos: seq<File>
    /** The selected documents, in selection order. */
    var documents: seq<File>

    /** What the selection handlers guarantee of the state: one photo at most, and only files within the size limits. */
    ghost predicate Valid()
      reads this
    {
      && |profilePhotos| <= 1
      && (forall f :: f in profilePhotos ==> f.size <= MaxProfilePhotoBytes)
      && (forall f :: f in documents ==> f.size <= MaxDocumentBytes)
    }

    constructor ()
      ensures Valid()
      ensures profilePhotos == [] && documents == []
    {
      profilePhotos := [];
      documents := [];
    }

    /** The profile-photo select handler. */
    method OnProfilePhotoUpload(files: Option<seq<File>>)
      requires Valid()
      modifies this
      ensures Valid()
      ensures profilePhotos == SelectProfilePhoto(FilesOrEmpty(files))
      ensures documents == old(documents)
    {
      var fs := FilesOrEmpty(files);
      if fs != [] {
        var file := fs[0];
        if file.size > 2 * 1024 * 1024 {
          profilePhotos := [];
          return;
        }
        profilePhotos := [file];
      } else {
        profilePhotos := [];
      }
    }

    /** The remove button beside the selected photo. */
    method RemoveProfilePhoto()
      requires Valid()
      modifies this
      ensures Valid()
      ensures profilePhotos == [] && documents == old(documents)
    {
      profilePhotos := [];
    }

    /** The documents select handler: the accepted files replace the whole selection. */
    method OnDocumentsUpload(files: Option<seq<File>>)
      requires Valid()
      modifies this
      ensures Valid()
      ensures documents == AcceptDocuments(FilesOrEmpty(files))
      ensures profilePhotos == old(profilePhotos)
    {
      documents := AcceptDocuments(FilesOrEmpty(files));
    }

    /** The remove button beside the idx-th document. */
    method RemoveDocument(idx: int)
      requires Valid()
      modifies this
      ensures Valid()
      ensures documents == RemoveAt(old(documents), idx)
      ensures profilePhotos == old(profilePhotos)
    {
      RemoveAtKeepsAccepted(documents, idx);
      documents := RemoveAt(documents, idx);
    }

    /**
      After the request: a create that succeeded clears both selections; a
      failed request, or any submission in edit mode, leaves them as they are.
     */
    method FinishSubmission(isEditMode: bool, succeeded: bool)
      requires Valid()
      modifies this
      ensures Valid()
      ensures if !isEditMode && succeeded then profilePhotos == [] && documents == []
              else profilePhotos == old(profilePhotos) && documents == old(documents)
    {
      if !isEditMode && succeeded {
        profilePhotos := [];
        documents := [];
      }
    }

    /**
      onSubmit's body construction: every property of the form data in order,
      skipping undefined, null, the attachment keys and files; then the photo,
      then the documents. Since the selection handlers keep the state valid,
      every file the body carries is within the limit checked when it was chosen.
     */
    method BuildFormData(data: Record, numText: Number -> string) returns (formData: seq<Entry>)
      ensures formData == Payload(data, profilePhotos, documents, numText)
      ensures Valid() ==> forall e :: e in formData && e.1.Blob? ==> e.1.file.size <= MaxDocumentBytes
      ensures Valid() && WellFormed(data) ==>
                forall p :: p in GetAll(formData, Field(ProfilePhotoKey)) ==> p.Blob? && p.file.size <= MaxProfilePhotoBytes
    {
      formData := [];
      var i := 0;
      while i < |data|
        invariant 0 <= i <= |data|
        invariant formData + TextEntries(data[i..], numText) == TextEntries(data, numText)
      {
        TextEntriesStep(data, i, numText);
        ghost var fields := FieldEntries(data[i].0, data[i].1, numText);
        ghost var rest := TextEntries(data[i + 1..], numText);
        assert formData + (fields + rest) == (formData + fields) + rest;
        formData := AppendField(formData, data[i].0, data[i].1, numText);
        i := i + 1;
      }
      assert data[i..] == [];
      assert formData == TextEntries(data, numText);
      formData := AppendAttachments(formData, profilePhotos, documents);
      if Valid() {
        PayloadFilesWithinLimits(data, profilePhotos, documents, numText);
      }
    }
  }

  /**
    The callback run for each [key, value] of the form data: append what the
    property contributes to the body being built.
   */
  method AppendField(formData: seq<Entry>, key: string, value: Value, numText: Number -> string)
    returns (appended: seq<Entry>)
    ensures appended == formData + FieldEntries(key, value, numText)
  {
    appended := formData;
    if value != Undefined && value != Null && !(key == ProfilePhotoKey || key == DocumentsKey) && !value.FileValue? {
      if key == BackgroundCheckKey {
        appended := appended + [(Field(key), Text(if Truthy(value) then "1" else "0"))];
      } else if value.Arr? {
        var items := value.items;
        var j := 0;
        while j < |items|
          invariant 0 <= j <= |items|
          invariant appended == formData + ItemEntries(key, items)[..j]
        {
          appended := appended + [(Item(key), Text(items[j]))];
          j := j + 1;
        }
        assert ItemEntries(key, items)[..j] == ItemEntries(key, items);
      } else {
        appended := appended + [(Field(key), Text(ToJsString(value, numText)))];
      }
    }
  }

  /** Append the selected photo, if any, under `profile_photo`, then each document under `documents[i]`. */
  method AppendAttachments(formData: seq<Entry>, profilePhotos: seq<File>, documents: seq<File>)
    returns (appended: seq<Entry>)
    ensures appended == formData + AttachmentEntries(profilePhotos, documents)
  {
    appended := formData;
    if profilePhotos != [] {
      appended := appended + [(Field(ProfilePhotoKey), Blob(profilePhotos[0]))];
    }
    ghost var before := appended;
    if |documents| > 0 {
      var index := 0;
      while index < |documents|
        invariant 0 <= index <= |documents|
        invariant appended == before + DocumentEntries(documents)[..index]
      {
        appended := appended + [(Indexed(DocumentsKey, index), Blob(documents[index]))];
        index := index + 1;
      }
      assert DocumentEntries(documents)[..index] == DocumentEntries(documents);
    }
  }

  lemma TextEntriesStep(data: Record, i: nat, numText: Number -> string)
    requires i < |data|
    ensures TextEntries(data[i..], numText) == FieldEntries(data[i].0, data[i].1, numText) + TextEntries(data[i + 1..], numText)
  {
    assert data[i..][0] == data[i] && data[i..][1..] == data[i + 1..];
  }

  /** Each attachment entry carries one of the selected files. */
  lemma AttachmentFileOrigins(profilePhotos: seq<File>, documents: seq<File>)
    ensures forall e :: e in AttachmentEntries(profilePhotos, documents) ==>
              e.1.Blob? && (e.1.file in profilePhotos || e.1.file in documents)
  {
    var att := AttachmentEntries(profilePhotos, documents);
    var off := if profilePhotos != [] then 1 else 0;
    forall e | e in att ensures e.1.Blob? && (e.1.file in profilePhotos || e.1.file in documents) {
      var k :| 0 <= k < |att| && att[k] == e;
      if k >= off {
        assert att[(k - off) + off] == (Indexed(DocumentsKey, k - off), Blob(documents[k - off]));
      }
    }
  }

  /**
    Every file in a payload built from a valid selection is within its limit:
    the photo at most 2 MiB, each document at most 5 MiB.
   */
  lemma PayloadFilesWithinLimits(data: Record, profilePhotos: seq<File>, documents: seq<File>, numText: Number -> string)
    requires forall f :: f in profilePhotos ==> f.size <= MaxProfilePhotoBytes
    requires forall f :: f in documents ==> f.size <= MaxDocumentBytes
    ensures forall e :: e in Payload(data, profilePhotos, documents, numText) && e.1.Blob? ==>
              e.1.file.size <= MaxDocumentBytes
    ensures WellFormed(data) ==>
              forall p :: p in GetAll(Payload(data, profilePhotos, documents, numText), Field(ProfilePhotoKey)) ==>
                p.Blob? && p.file.size <= MaxProfilePhotoBytes
  {
    AttachmentFileOrigins(profilePhotos, documents);
    if WellFormed(data) {
      AttachmentFieldsNotSentAsText(data, profilePhotos, documents, numText);
      if profilePhotos != [] {
        assert profilePhotos[0] in profilePhotos;
      }
    }
  }

  /**
    Edit mode, if the reset values are submitted unchanged and pass validation:
    a numeric field that is falsy in the record being edited (0, "", null,
    absent) is undefined after the reset patch and is then not sent at all.
   */
  lemma FalsyNumericFieldNotSent(initial: Record, k: string, profilePhotos: seq<File>, documents: seq<File>,
                                 toNumber: Value -> Number, numText: Number -> string)
    requires WellFormed(initial) && IsNumericField(k) && !Truthy(Get(initial, k))
    ensures GetAll(Payload(PatchNumericFields(initial, toNumber), profilePhotos, documents, numText), Field(k)) == []
  {
    var patched := PatchNumericFields(initial, toNumber);
    PatchWellFormed(initial, toNumber);
    PlainNumericKeys();
    SkippedFieldNotSent(patched, profilePhotos, documents, k, numText);
  }

  /**
    Edit mode, if the reset values are submitted unchanged and pass validation:
    a truthy numeric field goes out as exactly one entry, the text of Number(x).
   */
  lemma TruthyNumericFieldSent(initial: Record, k: string, profilePhotos: seq<File>, documents: seq<File>,
                               toNumber: Value -> Number, numText: Number -> string)
    requires WellFormed(initial) && IsNumericField(k) && Truthy(Get(initial, k))
    ensures GetAll(Payload(PatchNumericFields(initial, toNumber), profilePhotos, documents, numText), Field(k))
            == [Text(numText(toNumber(Get(initial, k))))]
  {
    var patched := PatchNumericFields(initial, toNumber);
    PatchWellFormed(initial, toNumber);
    PlainNumericKeys();
    ScalarFieldEncoding(patched, profilePhotos, documents, k, numText);
  }
}
