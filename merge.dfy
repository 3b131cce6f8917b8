/**
 * Merging one downloaded comment into the comments already stored for its
 * post (main.go:1389-1408): the first stored comment with the same id is
 * kept if identical and replaced in place otherwise; a new id is appended.
 */
module CommentMerge {
  import opened Archive

  /**
   * The comments after the merge, and whether the file must be written
   * (`shouldStore`): only an identical stored comment spares the write.
   */
  function Merge(stored: seq<CommentRecord>, record: CommentRecord): (r: (seq<CommentRecord>, bool))
    ensures |r.0| == |stored| || |r.0| == |stored| + 1
    ensures record in r.0
    decreases |stored|
  {
    if stored == [] then ([record], true)
    else if stored[0].id == record.id then
      if stored[0] == record then (stored, false) else ([record] + stored[1..], true)
    else
      var rest := Merge(stored[1..], record);
      ([stored[0]] + rest.0, rest.1)
  }

  /** The number of stored comments with id `id`. */
  function CountId(comments: seq<CommentRecord>, id: int): nat
    decreases |comments|
  {
    if comments == [] then 0 else (if comments[0].id == id then 1 else 0) + CountId(comments[1..], id)
  }

  /** No stored comment has the id: the record is appended at the end and the file written. */
  lemma {:induction false} MergeAppends(stored: seq<CommentRecord>, record: CommentRecord)
    requires forall j :: 0 <= j < |stored| ==> stored[j].id != record.id
    ensures Merge(stored, record) == (stored + [record], true)
    decreases |stored|
  {
    if stored != [] {
      assert stored[0].id != record.id;
      MergeAppends(stored[1..], record);
      assert [stored[0]] + (stored[1..] + [record]) == stored + [record];
    } else {
      assert stored + [record] == [record];
    }
  }

  /**
   * The first stored comment with the id is at `i`: if it is identical
   * nothing changes and nothing is written, otherwise it is replaced at
   * the same index and every other comment keeps its place.
   */
  lemma {:induction false} MergeReplaces(stored: seq<CommentRecord>, record: CommentRecord, i: nat)
    requires i < |stored| && stored[i].id == record.id
    requires forall j :: 0 <= j < i ==> stored[j].id != record.id
    ensures stored[i] == record ==> Merge(stored, record) == (stored, false)
    ensures stored[i] != record ==> Merge(stored, record) == (stored[i := record], true)
    decreases i
  {
    if i > 0 {
      assert stored[0].id != record.id;
      MergeReplaces(stored[1..], record, i - 1);
      assert [stored[0]] + stored[1..] == stored;
      assert [stored[0]] + stored[1..][i - 1 := record] == stored[i := record];
    } else {
      assert [record] + stored[1..] == stored[0 := record];
    }
  }

  /** After the merge the comments hold exactly one with the record's id, if they held at most one before. */
  lemma {:induction false} MergeOnePerId(stored: seq<CommentRecord>, record: CommentRecord)
    requires CountId(stored, record.id) <= 1
    ensures CountId(Merge(stored, record).0, record.id) == 1
    decreases |stored|
  {
    if stored == [] {
      assert CountId([record], record.id) == 1 + CountId([], record.id);
    } else if stored[0].id == record.id {
      var merged := Merge(stored, record).0;
      assert merged[0].id == record.id && merged[1..] == stored[1..];
    } else {
      MergeOnePerId(stored[1..], record);
      var merged := Merge(stored, record).0;
      assert merged[0] == stored[0] && merged[1..] == Merge(stored[1..], record).0;
    }
  }

  /** Merging the same comment again changes nothing and writes nothing. */
  lemma {:induction false} MergeIdempotent(stored: seq<CommentRecord>, record: CommentRecord)
    ensures var merged := Merge(stored, record).0;
      Merge(merged, record) == (merged, false)
    decreases |stored|
  {
    if stored != [] && stored[0].id != record.id {
      MergeIdempotent(stored[1..], record);
    }
  }

  /** The loop of main.go:1389-1408 over the stored comments, then the append. */
  method MergeComment(stored: seq<CommentRecord>, record: CommentRecord) returns (merged: seq<CommentRecord>, shouldStore: bool)
    ensures (merged, shouldStore) == Merge(stored, record)
  {
    merged := stored;
    shouldStore := true;
    var foundDup := false;
    var i := 0;
    while i < |merged|
      invariant 0 <= i <= |merged| && merged == stored
      invariant forall j :: 0 <= j < i ==> stored[j].id != record.id
    {
      if merged[i].id == record.id {
        MergeReplaces(stored, record, i);
        if merged[i] == record {
          shouldStore := false;
        } else {
          merged := merged[i := record];
        }
        foundDup := true;
        break;
      }
      i := i + 1;
    }
    if !foundDup {
      MergeAppends(stored, record);
      merged := merged + [record];
    }
  }
}
