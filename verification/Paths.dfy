/** How the operating system resolves a path to a place in the tree of files. Links are left out. */
module Paths {

  // ----- Splitting a path -----

  function IndexOfSlash(s: string): (i: nat)
    ensures i <= |s|
    ensures i < |s| ==> s[i] == '/'
    ensures forall k :: 0 <= k < i ==> s[k] != '/'
  {
    if s == "" || s[0] == '/' then 0 else 1 + IndexOfSlash(s[1..])
  }

  function Segments(s: string): (r: seq<string>)
    ensures r != []
    decreases |s|
  {
    var i := IndexOfSlash(s);
    if i == |s| then [s] else [s[..i]] + Segments(s[i + 1..])
  }

  function Join(segments: seq<string>): string
    requires segments != []
    decreases |segments|
  {
    if |segments| == 1 then segments[0] else segments[0] + "/" + Join(segments[1..])
  }

  /** The segments are what stands between the slashes. */
  lemma {:induction false} SegmentsSplit(s: string)
    ensures Join(Segments(s)) == s
    ensures forall i :: 0 <= i < |Segments(s)| ==> '/' !in Segments(s)[i]
    decreases |s|
  {
    var i := IndexOfSlash(s);
    if i < |s| {
      SegmentsSplit(s[i + 1..]);
      assert Segments(s)[1..] == Segments(s[i + 1..]);
      assert s == s[..i] + "/" + s[i + 1..];
    }
  }

  /** The last segment of a path, and the segments before it. */
  function LastName(s: string): string { Segments(s)[|Segments(s)| - 1] }

  function Before(s: string): seq<string> { Segments(s)[..|Segments(s)| - 1] }

  predicate Rooted(s: string) { s != "" && s[0] == '/' }

  lemma OneSegment(s: string)
    requires '/' !in s
    ensures Segments(s) == [s]
  {
  }

  /** The first slash cuts off the first segment. */
  lemma FirstCut(head: string, tail: string)
    requires '/' !in head
    ensures var s := head + "/" + tail;
            && Segments(s) == [head] + Segments(tail)
            && Before(s) == [head] + Before(tail) && LastName(s) == LastName(tail)
  {
    var s := head + "/" + tail;
    assert s[|head|] == '/' && forall k :: 0 <= k < |head| ==> s[k] == head[k];
    assert IndexOfSlash(s) == |head|;
    assert s[..|head|] == head && s[|head| + 1..] == tail;
  }

  lemma SlashSplits(s: string, i: nat, ending: string)
    requires i < |s| && s[i] == '/'
    ensures s == s[..i] + "/" + s[i + 1..]
    ensures s + ending == s[..i] + "/" + (s[i + 1..] + ending)
  {
  }

  /** An ending without a slash belongs to the last segment. */
  lemma {:induction false} EndingStays(s: string, ending: string)
    requires '/' !in ending
    ensures Segments(s + ending) == Before(s) + [LastName(s) + ending]
    decreases |s|
  {
    var i := IndexOfSlash(s);
    if i == |s| {
      OneSegment(s);
      OneSegment(s + ending);
    } else {
      var head, tail := s[..i], s[i + 1..];
      SlashSplits(s, i, ending);
      EndingStays(tail, ending);
      FirstCut(head, tail);
      FirstCut(head, tail + ending);
      assert [head] + (Before(tail) + [LastName(tail) + ending]) == Before(s) + [LastName(s) + ending];
    }
  }

  // ----- Walking the tree -----

  /** A place, as the names that lead there from the root. */
  type Place = seq<string>

  /** The directory that relative paths start from, and which places are directories. */
  datatype Tree = Tree(base: Place, isDir: Place -> bool)

  /** The base and everything above it are directories, and nothing in the base is one. */
  ghost predicate Flat(t: Tree) {
    && (forall k :: 0 <= k <= |t.base| ==> t.isDir(t.base[..k]))
    && (forall name: string :: !t.isDir(t.base + [name]))
  }

  function SomeTree(): (t: Tree)
    ensures Flat(t)
  {
    Tree([], (p: Place) => p == [])
  }

  type Layout = t: Tree | Flat(t) witness SomeTree()

  datatype Reached = Nowhere | At(place: Place)

  function Onward(at: Place, segment: string): Place {
    if segment == "" || segment == "." then at
    else if segment == ".." then (if at == [] then [] else at[..|at| - 1])
    else at + [segment]
  }

  /** Every segment is looked up in a directory; the last one may name anything. */
  function Walk(t: Tree, at: Place, segments: seq<string>): Reached
    decreases |segments|
  {
    if segments == [] then At(at)
    else if !t.isDir(at) then Nowhere
    else Walk(t, Onward(at, segments[0]), segments[1..])
  }

  /** Where a walk that leads nowhere is stuck: a segment was to be looked up in what is no directory. */
  function Stuck(t: Tree, at: Place, segments: seq<string>): (r: Reached)
    ensures r.At? <==> !Walk(t, at, segments).At?
    decreases |segments|
  {
    if segments == [] then Nowhere
    else if !t.isDir(at) then At(at)
    else Stuck(t, Onward(at, segments[0]), segments[1..])
  }

  function Start(t: Tree, path: string): Place { if Rooted(path) then [] else t.base }

  function Resolve(t: Tree, path: string): Reached {
    Walk(t, Start(t, path), Segments(path))
  }

  /** The directory in which the last segment of a path is looked up. */
  function Folder(t: Tree, path: string): Reached {
    Walk(t, Start(t, path), Before(path))
  }

  /** A path that starts with a slash is resolved from the root, any other from the base. */
  lemma WhereToStart(t: Tree, path: string)
    ensures path != "" && path[0] == '/' ==> Resolve(t, path) == Walk(t, [], Segments(path))
    ensures path == "" || path[0] != '/' ==> Resolve(t, path) == Walk(t, t.base, Segments(path))
  {
  }

  lemma {:induction false} WalkOn(t: Tree, at: Place, a: seq<string>, b: seq<string>)
    ensures Walk(t, at, a + b) == if Walk(t, at, a).At? then Walk(t, Walk(t, at, a).place, b) else Nowhere
    decreases |a|
  {
    if a == [] {
      assert a + b == b;
    } else if t.isDir(at) {
      assert (a + b)[1..] == a[1..] + b;
      WalkOn(t, Onward(at, a[0]), a[1..], b);
    } else {
      assert a + b != [];
    }
  }

  /** A path with an ending that rules out "", "." and ".." resolves to that name in its folder. */
  lemma ResolveInFolder(t: Tree, path: string, ending: string)
    requires '/' !in ending && |ending| > 2
    ensures var f := Folder(t, path);
            Resolve(t, path + ending) ==
              if f.At? && t.isDir(f.place) then At(f.place + [LastName(path) + ending]) else Nowhere
  {
    var name := LastName(path) + ending;
    EndingStays(path, ending);
    WalkOn(t, Start(t, path), Before(path), [name]);
    assert [name][1..] == [];
  }

  /** Without "..", a path stays at or below where it starts. */
  lemma {:induction false} WalkDown(t: Tree, at: Place, segments: seq<string>)
    requires ".." !in segments
    ensures Walk(t, at, segments).At? ==> at <= Walk(t, at, segments).place
    decreases |segments|
  {
    if segments != [] && t.isDir(at) {
      WalkDown(t, Onward(at, segments[0]), segments[1..]);
    }
  }

  lemma OneBelowIsNoDir(t: Layout, at: Place)
    requires t.base <= at && |at| == |t.base| + 1
    ensures !t.isDir(at)
  {
    assert at == t.base + [at[|t.base|]];
  }

  /** In a flat directory no walk gets more than one name below it. */
  lemma {:induction false} WalkStaysShallow(t: Layout, at: Place, segments: seq<string>)
    requires t.base <= at ==> |at| <= |t.base| + 1
    ensures var r := Walk(t, at, segments); r.At? && t.base <= r.place ==> |r.place| <= |t.base| + 1
    decreases |segments|
  {
    if segments != [] && t.isDir(at) {
      if t.base <= at && |at| == |t.base| + 1 {
        OneBelowIsNoDir(t, at);
      }
      WalkStaysShallow(t, Onward(at, segments[0]), segments[1..]);
    }
  }

  predicate Idle(segments: seq<string>) {
    forall i :: 0 <= i < |segments| ==> segments[i] == "" || segments[i] == "."
  }

  /** In a flat directory, without "..", only segments that say nothing lead to where one is. */
  lemma {:induction false} StandingStill(t: Layout, segments: seq<string>)
    requires ".." !in segments
    ensures Walk(t, t.base, segments) == At(t.base) <==> Idle(segments)
    decreases |segments|
  {
    assert t.base[..|t.base|] == t.base;
    if segments != [] {
      assert segments == [segments[0]] + segments[1..];
      if segments[0] == "" || segments[0] == "." {
        StandingStill(t, segments[1..]);
      } else {
        assert t.base + [segments[0]] != t.base;
      }
    }
  }
}
