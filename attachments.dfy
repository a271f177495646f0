/**
  The selection-time gates for the two attachment inputs: the single profile
  photo (at most 2 MiB) and the list of documents (each at most 5 MiB), and
  removing one document from the list by its position.
 */
module Attachments {
  import opened Js

  const MaxProfilePhotoBytes: nat := 2 * 1024 * 1024
  const MaxDocumentBytes: nat := 5 * 1024 * 1024

  /** `event.files || []`: a missing file list reads as empty. */
  function FilesOrEmpty(files: Option<seq<File>>): seq<File>
  {
    match files
    case None => []
    case Some(fs) => fs
  }

  /**
    The profile-photo selection after a file-select event: the first chosen file
    when there is one and it is at most 2 MiB, and nothing otherwise.
   */
  function SelectProfilePhoto(files: seq<File>): (selection: seq<File>)
    ensures |selection| <= 1
    ensures forall f :: f in selection ==> f.size <= MaxProfilePhotoBytes
    ensures selection <= files
    ensures selection != [] <==> files != [] && files[0].size <= MaxProfilePhotoBytes
  {
    if files == [] then []
    else if files[0].size > MaxProfilePhotoBytes then []
    else [files[0]]
  }

  /** a can be obtained from b by deleting elements, without reordering. */
  ghost predicate IsSubsequence(a: seq<File>, b: seq<File>)
  {
    a == [] || (b != [] && ((a[0] == b[0] && IsSubsequence(a[1..], b[1..])) || IsSubsequence(a, b[1..])))
  }

  /**
    The accepted documents: every chosen file of at most 5 MiB, in the order
    chosen; larger files are dropped one by one, the rest are kept.
   */
  function AcceptDocuments(files: seq<File>): (accepted: seq<File>)
    ensures forall i :: 0 <= i < |accepted| ==> accepted[i].size <= MaxDocumentBytes
    ensures IsSubsequence(accepted, files)
    ensures forall f: File :: f.size <= MaxDocumentBytes ==> multiset(accepted)[f] == multiset(files)[f]
    ensures forall f: File :: f.size > MaxDocumentBytes ==> multiset(accepted)[f] == 0
  {
    if files == [] then []
    else
      var rest := AcceptDocuments(files[1..]);
      assert files == [files[0]] + files[1..];
      if files[0].size > MaxDocumentBytes then rest
      else
        assert ([files[0]] + rest)[1..] == rest;
        [files[0]] + rest
  }

  /** Keeping every small file, and only those, is all a subsequence can do: it is exactly AcceptDocuments. */
  lemma {:induction false} AcceptDocumentsUnique(files: seq<File>, accepted: seq<File>)
    requires IsSubsequence(accepted, files)
    requires forall i :: 0 <= i < |accepted| ==> accepted[i].size <= MaxDocumentBytes
    requires forall f: File :: f.size <= MaxDocumentBytes ==> multiset(accepted)[f] == multiset(files)[f]
    ensures accepted == AcceptDocuments(files)
  {
    if files == [] {
    } else {
      var x := files[0];
      assert files == [x] + files[1..];
      if accepted != [] && accepted[0] == x && IsSubsequence(accepted[1..], files[1..]) {
        assert accepted == [x] + accepted[1..];
        assert x.size <= MaxDocumentBytes;
        forall f: File | f.size <= MaxDocumentBytes
          ensures multiset(accepted[1..])[f] == multiset(files[1..])[f]
        {
          assert multiset(accepted) == multiset{x} + multiset(accepted[1..]);
          assert multiset(files) == multiset{x} + multiset(files[1..]);
        }
        forall i | 0 <= i < |accepted[1..]| ensures accepted[1..][i].size <= MaxDocumentBytes {
          assert accepted[1..][i] == accepted[i + 1];
        }
        AcceptDocumentsUnique(files[1..], accepted[1..]);
      } else {
        assert IsSubsequence(accepted, files[1..]);
        if x.size <= MaxDocumentBytes {
          SubsequenceCount(accepted, files[1..], x);
          assert false;
        }
        forall f: File | f.size <= MaxDocumentBytes
          ensures multiset(accepted)[f] == multiset(files[1..])[f]
        {
          assert multiset(files) == multiset{x} + multiset(files[1..]);
        }
        AcceptDocumentsUnique(files[1..], accepted);
      }
    }
  }

  /** A subsequence holds no more copies of any file than the sequence it comes from. */
  lemma {:induction false} SubsequenceCount(a: seq<File>, b: seq<File>, f: File)
    requires IsSubsequence(a, b)
    ensures multiset(a)[f] <= multiset(b)[f]
  {
    if a != [] {
      assert b == [b[0]] + b[1..];
      assert multiset(b) == multiset{b[0]} + multiset(b[1..]);
      if a[0] == b[0] && IsSubsequence(a[1..], b[1..]) {
        assert a == [a[0]] + a[1..];
        assert multiset(a) == multiset{a[0]} + multiset(a[1..]);
        SubsequenceCount(a[1..], b[1..], f);
      } else {
        SubsequenceCount(a, b[1..], f);
      }
    }
  }

  /**
    `documents.filter((_, i) => i !== idx)`: every element except the one at
    position idx, in order; an idx outside the list removes nothing.
   */
  function RemoveAt(documents: seq<File>, idx: int): (remaining: seq<File>)
    ensures 0 <= idx < |documents| ==> remaining == documents[..idx] + documents[idx + 1..]
    ensures !(0 <= idx < |documents|) ==> remaining == documents
  {
    if documents == [] then []
    else
      var rest := RemoveAt(documents[1..], idx - 1);
      if idx == 0 then
        rest
      else
        assert 0 < idx < |documents| ==> documents[..idx] == [documents[0]] + documents[1..][..idx - 1];
        [documents[0]] + rest
  }

  /** Removing a document keeps every remaining one within the size limit and never adds any. */
  lemma RemoveAtKeepsAccepted(documents: seq<File>, idx: int)
    requires forall f :: f in documents ==> f.size <= MaxDocumentBytes
    ensures forall f :: f in RemoveAt(documents, idx) ==> f in documents && f.size <= MaxDocumentBytes
    ensures |RemoveAt(documents, idx)| == if 0 <= idx < |documents| then |documents| - 1 else |documents|
  {
    if 0 <= idx < |documents| {
      forall f | f in RemoveAt(documents, idx) ensures f in documents {
        assert f in documents[..idx] || f in documents[idx + 1..];
      }
    }
  }
}
