/** The order `list` gives its records: newest first, ties in directory order. */
module Listing {
  import opened Records
  import opened Timestamps

  predicate NewestFirst(files: seq<FileMetadata>) {
    forall i, j :: 0 <= i < j < |files| ==> !Less(files[i].uploadedAt, files[j].uploadedAt)
  }

  /** A stable insertion: before the first record that is strictly older. */
  function Insert(f: FileMetadata, files: seq<FileMetadata>): (r: seq<FileMetadata>)
    ensures multiset(r) == multiset(files) + multiset{f}
  {
    if files == [] then [f]
    else
      assert files == [files[0]] + files[1..];
      if Less(f.uploadedAt, files[0].uploadedAt) then [files[0]] + Insert(f, files[1..])
      else [f] + files
  }

  function SortNewest(files: seq<FileMetadata>): (r: seq<FileMetadata>)
    ensures multiset(r) == multiset(files)
  {
    if files == [] then []
    else
      assert files == [files[0]] + files[1..];
      Insert(files[0], SortNewest(files[1..]))
  }

  lemma {:induction false} InsertKeepsOrder(f: FileMetadata, files: seq<FileMetadata>)
    requires NewestFirst(files)
    ensures NewestFirst(Insert(f, files))
  {
    var r := Insert(f, files);
    if files != [] && Less(f.uploadedAt, files[0].uploadedAt) {
      InsertKeepsOrder(f, files[1..]);
      var tail := Insert(f, files[1..]);
      LessTotal(f.uploadedAt, files[0].uploadedAt);
      forall j | 0 <= j < |tail| ensures !Less(files[0].uploadedAt, tail[j].uploadedAt) {
        assert tail[j] in multiset(tail);
        if tail[j] != f {
          assert tail[j] in multiset(files[1..]);
          assert tail[j] in files[1..];
        }
      }
    } else if files != [] {
      forall j | 0 <= j < |files| ensures !Less(f.uploadedAt, files[j].uploadedAt) {
        if Less(f.uploadedAt, files[j].uploadedAt) && j > 0 {
          assert !Less(files[0].uploadedAt, files[j].uploadedAt);
          LessTotal(f.uploadedAt, files[0].uploadedAt);
          LessTotal(files[0].uploadedAt, files[j].uploadedAt);
          LessTotal(f.uploadedAt, files[j].uploadedAt);
          LessTransitive(f.uploadedAt, files[j].uploadedAt, files[0].uploadedAt);
        }
      }
    }
  }

  lemma {:induction false} SortIsNewestFirst(files: seq<FileMetadata>)
    ensures NewestFirst(SortNewest(files))
  {
    if files != [] {
      SortIsNewestFirst(files[1..]);
      InsertKeepsOrder(files[0], SortNewest(files[1..]));
    }
  }

  /** The records with a given time, in their order. */
  function At(files: seq<FileMetadata>, time: string): seq<FileMetadata> {
    if files == [] then [] else (if files[0].uploadedAt == time then [files[0]] else []) + At(files[1..], time)
  }

  lemma AtHead(f: FileMetadata, rest: seq<FileMetadata>, time: string)
    ensures At([f] + rest, time) == (if f.uploadedAt == time then [f] else []) + At(rest, time)
  {
    assert ([f] + rest)[1..] == rest;
  }

  lemma AtBehind(g: FileMetadata, rest: seq<FileMetadata>, more: seq<FileMetadata>, front: seq<FileMetadata>,
                 time: string)
    requires At(more, time) == front + At(rest, time)
    requires front == [] || g.uploadedAt != time
    ensures At([g] + more, time) == front + At([g] + rest, time)
  {
    AtHead(g, more, time);
    AtHead(g, rest, time);
  }

  lemma {:induction false} InsertIsStable(f: FileMetadata, files: seq<FileMetadata>, time: string)
    ensures At(Insert(f, files), time) == (if f.uploadedAt == time then [f] else []) + At(files, time)
    decreases |files|
  {
    if files != [] && Less(f.uploadedAt, files[0].uploadedAt) {
      var g, rest := files[0], files[1..];
      InsertIsStable(f, rest, time);
      LessTotal(f.uploadedAt, g.uploadedAt);
      AtBehind(g, rest, Insert(f, rest), if f.uploadedAt == time then [f] else [], time);
      assert files == [g] + rest;
    } else {
      AtHead(f, files, time);
    }
  }

  /** Records of the same time stay in the order of the directory. */
  lemma {:induction false} SortIsStable(files: seq<FileMetadata>, time: string)
    ensures At(SortNewest(files), time) == At(files, time)
  {
    if files != [] {
      SortIsStable(files[1..], time);
      InsertIsStable(files[0], SortNewest(files[1..]), time);
    }
  }

  /** For records stamped with printed times, the order of the listing is the order of time. */
  lemma ListedByTime(files: seq<FileMetadata>, times: seq<Time>)
    requires |times| == |files|
    requires forall i :: 0 <= i < |files| ==> Printable(times[i]) && files[i].uploadedAt == Print(times[i])
    ensures NewestFirst(files) <==> forall i, j :: 0 <= i < j < |times| ==> !Earlier(times[i], times[j])
  {
    forall i, j | 0 <= i < j < |files|
      ensures Less(files[i].uploadedAt, files[j].uploadedAt) <==> Earlier(times[i], times[j])
    {
      PrintedOrderIsTimeOrder(times[i], times[j]);
    }
  }
}
