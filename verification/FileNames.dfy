/** File names: which names a client may give an upload, which entries of the storage directory an
    id leads to, and how the directory's `{id}.data` and `{id}.meta` entries stand for two maps. */
module FileNames {
  import opened Paths
  import opened StreamingHash
  import opened Records

  // ----- Client-supplied names -----

  datatype Component = RootDir | CurDir | ParentDir | Normal(text: string)

  /** Segments after the first: empty ones and "." vanish. */
  function Rest(segments: seq<string>): seq<Component> {
    if segments == [] then []
    else
      var tail := Rest(segments[1..]);
      if segments[0] == "" || segments[0] == "." then tail
      else if segments[0] == ".." then [ParentDir] + tail
      else [Normal(segments[0])] + tail
  }

  /** How the platform's path type splits a name: a leading slash is a root, a leading "." is kept. */
  function Components(name: string): seq<Component> {
    var segments := Segments(name);
    if Rooted(name) then [RootDir] + Rest(segments)
    else if segments[0] == "." then [CurDir] + Rest(segments[1..])
    else Rest(segments)
  }

  /** The names that are accepted: no root, no leading "." and no ".." anywhere. */
  predicate SafeName(name: string) {
    && name != ""
    && !Rooted(name)
    && Segments(name)[0] != "."
    && ".." !in Segments(name)
  }

  function NameVerdict(name: string): Option<NameFault> {
    if name == "" then Some(EmptyName)
    else if SafeName(name) then None
    else Some(PathTraversal(name))
  }

  lemma {:induction false} RestComponents(segments: seq<string>)
    ensures forall i :: 0 <= i < |Rest(segments)| ==> Rest(segments)[i].Normal? || Rest(segments)[i] == ParentDir
    ensures ParentDir in Rest(segments) <==> ".." in segments
  {
    if segments != [] {
      RestComponents(segments[1..]);
      assert segments == [segments[0]] + segments[1..];
    }
  }

  predicate AllNormal(components: seq<Component>) {
    forall i :: 0 <= i < |components| ==> components[i].Normal?
  }

  lemma AllNormalMeansSafe(name: string)
    requires name != ""
    ensures AllNormal(Components(name)) <==> SafeName(name)
  {
    var segments := Segments(name);
    RestComponents(segments);
    if Rooted(name) {
      assert !Components(name)[0].Normal?;
    } else if segments[0] == "." {
      assert !Components(name)[0].Normal?;
    } else if ".." in segments {
      var i :| 0 <= i < |Rest(segments)| && Rest(segments)[i] == ParentDir;
      assert !Components(name)[i].Normal?;
    }
  }

  method ValidateFileName(name: string) returns (fault: Option<NameFault>)
    ensures fault == NameVerdict(name)
  {
    if name == "" {
      return Some(EmptyName);
    }
    AllNormalMeansSafe(name);
    var components := Components(name);
    for i := 0 to |components|
      invariant AllNormal(components[..i])
    {
      if !components[i].Normal? {
        return Some(PathTraversal(name));
      }
    }
    assert components[..|components|] == components;
    return None;
  }

  /** Joined to any directory, an accepted name leads nowhere outside it. */
  lemma SafeNamesStayInside(t: Tree, name: string)
    requires SafeName(name) && Resolve(t, name).At?
    ensures t.base <= Resolve(t, name).place
  {
    WalkDown(t, t.base, Segments(name));
  }

  /** The name that examples use is accepted. */
  lemma LetterIsSafe()
    ensures NameVerdict("a").None?
  {
    OneSegment("a");
  }

  /** A name that starts at the root is refused, whatever follows; so is the empty one. */
  lemma RootRefused(name: string)
    ensures name != "" && name[0] == '/' ==> NameVerdict(name) == Some(PathTraversal(name))
    ensures name == "" ==> NameVerdict(name) == Some(EmptyName)
  {
  }

  /** The converse fails. A leading "." is refused although it changes nothing. */
  lemma DotRefused(base: Place, a: string)
    requires '/' !in a && a !in ["", ".", ".."]
    ensures var t, name := Tree(base, (p: Place) => true), "." + "/" + a;
            !SafeName(name) && Resolve(t, name) == At(base + [a])
  {
    FirstCut(".", a);
    OneSegment(a);
    WalkOn(Tree(base, (p: Place) => true), base, ["."], [a]);
  }

  lemma DownUpDown(base: Place, a: string, b: string)
    requires a !in ["", ".", ".."] && b !in ["", ".", ".."]
    ensures Walk(Tree(base, (p: Place) => true), base, [a] + ([".."] + [b])) == At(base + [b])
  {
    var t := Tree(base, (p: Place) => true);
    WalkOn(t, base, [a], [".."] + [b]);
    WalkOn(t, base + [a], [".."], [b]);
    assert (base + [a])[..|base + [a]| - 1] == base;
  }

  /** And ".." is refused although a name before it makes up for it. */
  lemma UpRefused(base: Place, a: string, b: string)
    requires '/' !in a && '/' !in b && a !in ["", ".", ".."] && b !in ["", ".", ".."]
    ensures var t, name := Tree(base, (p: Place) => true), a + "/" + (".." + "/" + b);
            !SafeName(name) && Resolve(t, name) == At(base + [b])
  {
    FirstCut(a, ".." + "/" + b);
    FirstCut("..", b);
    OneSegment(b);
    DownUpDown(base, a, b);
    assert Segments(a + "/" + (".." + "/" + b))[1] == "..";
  }

  // ----- Names inside the storage directory -----

  function DataName(id: Id): string { id + ".data" }

  function MetaName(id: Id): string { id + ".meta" }

  function Stem(name: string): Id
    requires |name| >= 5
  {
    name[..|name| - 5]
  }

  predicate IsDataName(name: string) { |name| >= 5 && name[|name| - 5..] == ".data" }

  predicate IsMetaName(name: string) { |name| >= 5 && name[|name| - 5..] == ".meta" }

  lemma StemOfName(id: Id)
    ensures IsDataName(DataName(id)) && !IsMetaName(DataName(id)) && Stem(DataName(id)) == id
    ensures IsMetaName(MetaName(id)) && !IsDataName(MetaName(id)) && Stem(MetaName(id)) == id
  {
    assert DataName(id)[|id|..] == ".data" && MetaName(id)[|id|..] == ".meta";
    assert ".data"[1] != ".meta"[1];
  }

  /** As names, entries of different ids, and the two entries of one id, never coincide. */
  lemma NamesNeverCollide(a: Id, b: Id)
    ensures DataName(a) != MetaName(b)
    ensures DataName(a) == DataName(b) || MetaName(a) == MetaName(b) ==> a == b
  {
    StemOfName(a);
    StemOfName(b);
  }

  // ----- Which entries an id leads to -----

  /** An id that is one plain file-name part; the ids the store hands out are. */
  predicate PlainId(id: Id) { '/' !in id }

  /** The entry of the storage directory at a place, if it is one. */
  function EntryOf(t: Layout, p: Place): Option<string> {
    if |p| == |t.base| + 1 && p[..|t.base|] == t.base then Some(p[|t.base|]) else None
  }

  /** The entry of the storage directory that a path leads to, if it leads to one. */
  function EntryAt(t: Layout, path: string): Option<string> {
    match Resolve(t, path)
    case At(p) => EntryOf(t, p)
    case Nowhere => None
  }

  /** The entry of the storage directory, if it is one, that stops a path because it is no directory. */
  function StuckAt(t: Layout, path: string): Option<string> {
    match Stuck(t, Start(t, path), Segments(path))
    case At(p) => EntryOf(t, p)
    case Nowhere => None
  }

  lemma PlainSegments(id: Id)
    ensures PlainId(id) ==> Segments(id) == [id] && !Rooted(id)
  {
  }

  /** The id whose entries the names of `id` lead to. Ids come from clients unchecked, so this can be
      another one, and ids that leave the storage directory lead to no entry of it. */
  function Reach(t: Layout, id: Id): (r: Option<Id>)
    ensures PlainId(id) ==> r == Some(id)
    ensures r.Some? ==> PlainId(r.value)
  {
    SegmentsSplit(id);
    PlainSegments(id);
    if Folder(t, id) == At(t.base) then Some(LastName(id)) else None
  }

  /** Where the names of an id are looked up, if that is a directory. */
  predicate Housed(t: Layout, id: Id) {
    Folder(t, id).At? && t.isDir(Folder(t, id).place)
  }

  lemma WhereNamesLead(t: Layout, id: Id)
    ensures Resolve(t, DataName(id)) ==
              if Housed(t, id) then At(Folder(t, id).place + [DataName(LastName(id))]) else Nowhere
    ensures Resolve(t, MetaName(id)) ==
              if Housed(t, id) then At(Folder(t, id).place + [MetaName(LastName(id))]) else Nowhere
  {
    ResolveInFolder(t, id, ".data");
    ResolveInFolder(t, id, ".meta");
  }

  lemma InBase(t: Layout, p: Place, name: string)
    ensures var q := p + [name];
            && (|q| == |t.base| + 1 && q[..|t.base|] == t.base <==> p == t.base)
            && q[|p|] == name
  {
    assert (p + [name])[..|p|] == p;
  }

  /** `Reach` is what path resolution makes of both names of an id. */
  lemma NamesReach(t: Layout, id: Id)
    ensures EntryAt(t, DataName(id)) == if Reach(t, id).Some? then Some(DataName(Reach(t, id).value)) else None
    ensures EntryAt(t, MetaName(id)) == if Reach(t, id).Some? then Some(MetaName(Reach(t, id).value)) else None
  {
    WhereNamesLead(t, id);
    assert t.base[..|t.base|] == t.base;
    if Housed(t, id) {
      InBase(t, Folder(t, id).place, DataName(LastName(id)));
      InBase(t, Folder(t, id).place, MetaName(LastName(id)));
    }
  }

  lemma SamePlace(f: Place, x: string, g: Place, y: string)
    ensures f + [x] == g + [y] <==> f == g && x == y
  {
    var p, q := f + [x], g + [y];
    if p == q {
      assert p[..|p| - 1] == f && q[..|q| - 1] == g && p[|p| - 1] == x && q[|q| - 1] == y;
    }
  }

  /** Two ids meet in a file exactly when their names are looked up in the same directory and end in
      the same last segment; data and records never meet. */
  lemma IdsMeetIff(t: Layout, a: Id, b: Id)
    ensures var meet := Housed(t, a) && Folder(t, a) == Folder(t, b) && LastName(a) == LastName(b);
            && (Resolve(t, DataName(a)).At? && Resolve(t, DataName(a)) == Resolve(t, DataName(b)) <==> meet)
            && (Resolve(t, MetaName(a)).At? && Resolve(t, MetaName(a)) == Resolve(t, MetaName(b)) <==> meet)
    ensures Resolve(t, DataName(a)).At? ==> Resolve(t, DataName(a)) != Resolve(t, MetaName(b))
  {
    WhereNamesLead(t, a);
    WhereNamesLead(t, b);
    NamesNeverCollide(LastName(a), LastName(b));
    if Housed(t, a) && Housed(t, b) {
      var f, g := Folder(t, a).place, Folder(t, b).place;
      SamePlace(f, DataName(LastName(a)), g, DataName(LastName(b)));
      SamePlace(f, MetaName(LastName(a)), g, MetaName(LastName(b)));
      SamePlace(f, DataName(LastName(a)), g, MetaName(LastName(b)));
    }
  }

  /** Plain ids never meet. */
  lemma PlainIdsApart(t: Layout, a: Id, b: Id)
    requires PlainId(a) && PlainId(b) && a != b
    ensures Reach(t, a) != Reach(t, b)
    ensures Resolve(t, DataName(a)) != Resolve(t, DataName(b)) && Resolve(t, MetaName(a)) != Resolve(t, MetaName(b))
  {
    PlainSegments(a);
    PlainSegments(b);
    IdsMeetIff(t, a, b);
    WhereNamesLead(t, a);
    assert t.base[..|t.base|] == t.base;
  }

  /** For relative ids without "..": they lead to the entries of `x` exactly when `x` is their last
      segment and all the others are empty or ".". */
  lemma ReachesIff(t: Layout, id: Id, x: Id)
    requires !Rooted(id) && ".." !in Before(id)
    ensures Reach(t, id) == Some(x) <==> LastName(id) == x && Idle(Before(id))
  {
    StandingStill(t, Before(id));
  }

  /** So an id is not the only name of its entries. */
  lemma DotSlashReaches(t: Layout, x: Id)
    requires PlainId(x)
    ensures Reach(t, "./" + x) == Some(x) && DataName("./" + x) != DataName(x)
  {
    var id := "./" + x;
    assert id == "." + "/" + x;
    FirstCut(".", x);
    OneSegment(x);
    ReachesIff(t, id, x);
    assert |DataName(id)| == |DataName(x)| + 2;
  }

  /** A place in the storage directory, at any depth. */
  predicate Inside(t: Layout, p: Place) { t.base <= p && p != t.base }

  lemma InsideFolder(t: Layout, f: Place, name: string)
    requires t.isDir(f) && (t.base <= f ==> |f| <= |t.base| + 1)
    ensures Inside(t, f + [name]) <==> f == t.base
  {
    var p := f + [name];
    assert p[..|f|] == f;
    if Inside(t, p) {
      assert t.base == p[..|t.base|] == f[..|t.base|];
      if |f| == |t.base| + 1 {
        OneBelowIsNoDir(t, f);
      }
    }
  }

  /** The names of an id stay in the storage directory exactly when `Reach` finds an id for it. */
  lemma StaysInsideIff(t: Layout, id: Id)
    ensures Resolve(t, DataName(id)).At? && Inside(t, Resolve(t, DataName(id)).place) <==> Reach(t, id).Some?
    ensures Resolve(t, MetaName(id)).At? && Inside(t, Resolve(t, MetaName(id)).place) <==> Reach(t, id).Some?
  {
    WhereNamesLead(t, id);
    assert t.base[..|t.base|] == t.base;
    if Housed(t, id) {
      var f := Folder(t, id).place;
      WalkStaysShallow(t, Start(t, id), Before(id));
      InsideFolder(t, f, DataName(LastName(id)));
      InsideFolder(t, f, MetaName(LastName(id)));
    }
  }

  /** An id that starts with ".." leads out of it, to files beside the directory. */
  lemma ParentLeaves(t: Layout, y: Id)
    requires PlainId(y) && t.base != []
    ensures var id, above := ".." + "/" + y, t.base[..|t.base| - 1];
            && Reach(t, id).None?
            && Resolve(t, DataName(id)) == At(above + [DataName(y)])
            && Resolve(t, MetaName(id)) == At(above + [MetaName(y)])
  {
    var id, above := ".." + "/" + y, t.base[..|t.base| - 1];
    FirstCut("..", y);
    OneSegment(y);
    assert t.base[..|t.base|] == t.base && t.base[..|above|] == above;
    assert Before(id) == [".."];
    assert Walk(t, t.base, [".."]) == Walk(t, above, []);
    WhereNamesLead(t, id);
  }

  /** A path that goes on from a name in the directory is stuck at that name. */
  lemma NamesStopPaths(t: Layout, name: string, more: string)
    requires '/' !in name && name !in ["", ".", ".."]
    ensures StuckAt(t, name + "/" + more) == Some(name)
  {
    FirstCut(name, more);
    var p := t.base + [name];
    assert t.base[..|t.base|] == t.base && p[..|t.base|] == t.base;
    OneBelowIsNoDir(t, p);
    assert ([name] + Segments(more))[1..] == Segments(more);
    assert Stuck(t, p, Segments(more)) == At(p);
  }

  lemma Regroup(a: string, b: string, c: string, d: string)
    ensures a + b + c + d == a + b + (c + d)
  {
  }

  lemma DataStopsPaths(t: Layout, x: Id, y: Id)
    requires PlainId(x)
    ensures StuckAt(t, DataName(DataName(x) + "/" + y)) == Some(DataName(x))
  {
    Regroup(DataName(x), "/", y, ".data");
    NamesStopPaths(t, DataName(x), DataName(y));
  }

  lemma OneIdPerName(name: string)
    requires IsDataName(name) || IsMetaName(name)
    ensures IsDataName(name) ==> DataName(Stem(name)) == name
    ensures IsMetaName(name) ==> MetaName(Stem(name)) == name
    ensures forall id: Id :: MetaName(id) == name ==> IsMetaName(name) && id == Stem(name)
  {
    forall id: Id ensures MetaName(id) == name ==> IsMetaName(name) && id == Stem(name) {
      StemOfName(id);
    }
  }

  function LastDot(name: string): (i: int)
    ensures -1 <= i < |name|
    ensures i >= 0 ==> name[i] == '.'
    ensures forall k :: i < k < |name| ==> name[k] != '.'
  {
    if name == "" then -1
    else if name[|name| - 1] == '.' then |name| - 1
    else LastDot(name[..|name| - 1])
  }

  /** The part after the last dot, unless the name has no other dot than a leading one. */
  function Extension(name: string): Option<string> {
    var i := LastDot(name);
    if i <= 0 then None else Some(name[i + 1..])
  }

  /** The filter `list` applies to directory entries finds the records and nothing else; only a
      record stored under the empty id would be missed. */
  lemma ExtensionFindsRecords(name: string)
    requires IsDataName(name) || IsMetaName(name)
    ensures Extension(name) == Some("meta") <==> IsMetaName(name) && Stem(name) != ""
  {
    var dot := |name| - 5;
    assert name[dot] == name[dot..][0] == '.';
    assert forall k :: dot < k < |name| ==> name[k] == name[dot..][k - dot];
    assert LastDot(name) == dot;
    assert name[dot + 1..] == name[dot..][1..];
    assert ".meta"[1..] == "meta" && ".data"[1..] == "data" && "meta"[0] != "data"[0];
  }

  // ----- The directory as two maps -----

  datatype File = Data(bytes: Bytes) | Json(record: MetaRecord)
  type Directory = map<string, File>

  predicate EntriesOk(dir: Directory, data: map<Id, Bytes>, records: map<Id, MetaRecord>, id: Id) {
    && (id in data <==> DataName(id) in dir)
    && (id in records <==> MetaName(id) in dir)
    && (id in data ==> dir[DataName(id)] == Data(data[id]))
    && (id in records ==> dir[MetaName(id)] == Json(records[id]))
  }

  predicate NameOk(dir: Directory, name: string) {
    name in dir ==> PlainId(name) && (IsDataName(name) || IsMetaName(name))
  }

  /** The directory holds exactly the data files and records of the two maps. */
  ghost predicate Represents(dir: Directory, data: map<Id, Bytes>, records: map<Id, MetaRecord>) {
    && (forall id :: EntriesOk(dir, data, records, id))
    && (forall name :: NameOk(dir, name))
  }

  /** Whether an entry of this name is in the directory. */
  predicate Occupied(data: map<Id, Bytes>, records: map<Id, MetaRecord>, name: string) {
    || (IsDataName(name) && Stem(name) in data)
    || (IsMetaName(name) && Stem(name) in records)
  }

  lemma OccupiedIff(dir: Directory, data: map<Id, Bytes>, records: map<Id, MetaRecord>, name: string)
    requires Represents(dir, data, records)
    ensures name in dir <==> Occupied(data, records, name)
  {
    assert NameOk(dir, name);
    if IsDataName(name) || IsMetaName(name) {
      OneIdPerName(name);
      assert EntriesOk(dir, data, records, Stem(name));
    }
  }

  /** A directory stands for one pair of maps only. */
  lemma RepresentsUnique(dir: Directory, data: map<Id, Bytes>, records: map<Id, MetaRecord>,
                         data': map<Id, Bytes>, records': map<Id, MetaRecord>)
    requires Represents(dir, data, records) && Represents(dir, data', records')
    ensures data == data' && records == records'
  {
    forall id: Id
      ensures (id in data <==> id in data') && (id in data ==> data[id] == data'[id])
      ensures (id in records <==> id in records') && (id in records ==> records[id] == records'[id])
    {
      assert EntriesOk(dir, data, records, id) && EntriesOk(dir, data', records', id);
    }
  }

  // Writing or removing one directory entry changes one entry of one of the two maps.

  lemma PutData(dir: Directory, data: map<Id, Bytes>, records: map<Id, MetaRecord>, id: Id, bytes: Bytes)
    requires Represents(dir, data, records) && PlainId(id)
    ensures Represents(dir[DataName(id) := Data(bytes)], data[id := bytes], records)
  {
    var d, data' := dir[DataName(id) := Data(bytes)], data[id := bytes];
    forall j ensures EntriesOk(d, data', records, j) {
      NamesNeverCollide(id, j);
      assert EntriesOk(dir, data, records, j);
    }
    forall name ensures NameOk(d, name) {
      StemOfName(id);
      assert NameOk(dir, name);
    }
  }

  lemma PutRecord(dir: Directory, data: map<Id, Bytes>, records: map<Id, MetaRecord>, id: Id, record: MetaRecord)
    requires Represents(dir, data, records) && PlainId(id)
    ensures Represents(dir[MetaName(id) := Json(record)], data, records[id := record])
  {
    var d, records' := dir[MetaName(id) := Json(record)], records[id := record];
    forall j ensures EntriesOk(d, data, records', j) {
      NamesNeverCollide(id, j);
      NamesNeverCollide(j, id);
      assert EntriesOk(dir, data, records, j);
    }
    forall name ensures NameOk(d, name) {
      StemOfName(id);
      assert NameOk(dir, name);
    }
  }

  lemma DropData(dir: Directory, data: map<Id, Bytes>, records: map<Id, MetaRecord>, id: Id)
    requires Represents(dir, data, records)
    ensures Represents(dir - {DataName(id)}, data - {id}, records)
  {
    var d := dir - {DataName(id)};
    forall j ensures EntriesOk(d, data - {id}, records, j) {
      NamesNeverCollide(id, j);
      assert EntriesOk(dir, data, records, j);
    }
    forall name ensures NameOk(d, name) {
      assert NameOk(dir, name);
    }
  }

  lemma DropRecord(dir: Directory, data: map<Id, Bytes>, records: map<Id, MetaRecord>, id: Id)
    requires Represents(dir, data, records)
    ensures Represents(dir - {MetaName(id)}, data, records - {id})
  {
    var d := dir - {MetaName(id)};
    forall j ensures EntriesOk(d, data, records - {id}, j) {
      NamesNeverCollide(id, j);
      NamesNeverCollide(j, id);
      assert EntriesOk(dir, data, records, j);
    }
    forall name ensures NameOk(d, name) {
      assert NameOk(dir, name);
    }
  }
}
