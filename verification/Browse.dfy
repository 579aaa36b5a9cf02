/** Listing the children of a folder, page by page (internal/v3/grpc/tools/browse_folder.go). */
module Browse {
  import opened Bytes

  const SEP: Byte := 47
  const BACKSLASH: Byte := 92

  // ---------------------------------------------------------------- prefix ranges

  /** Byte order, as SQLite's BINARY collation and Go compare strings. */
  predicate Less(a: Text, b: Text) {
    b != [] && (a == [] || a[0] < b[0] || (a[0] == b[0] && Less(a[1..], b[1..])))
  }

  function UpperBound(s: Text): Text {
    if s == [] then []
    else
      var n := |s| - 1;
      if s[n] < 0xff then s[..n] + [s[n] + 1] else UpperBound(s[..n])
  }

  method PrefixUpperBound(s: Text) returns (r: Text)
    ensures r == UpperBound(s)
  {
    var b := new Byte[|s|](i requires 0 <= i < |s| => s[i]);
    var i := |s| - 1;
    assert s[..|s|] == s;
    while i >= 0
      invariant -1 <= i < |s| && b[..] == s && UpperBound(s) == UpperBound(s[..i + 1])
    {
      if b[i] < 0xff {
        b[i] := b[i] + 1;
        assert s[..i + 1][..i] == s[..i];
        assert b[..i + 1] == s[..i] + [s[i] + 1];
        return b[..i + 1];
      }
      assert s[..i + 1][..i] == s[..i];
      i := i - 1;
    }
    return [];
  }

  /** The bound read from the front: the tail's bound if it has one, else the first byte's. */
  lemma {:induction false} BoundFromFront(c: Byte, t: Text)
    ensures UpperBound([c] + t) == if UpperBound(t) != [] then [c] + UpperBound(t) else if c < 0xff then [c + 1] else []
    decreases |t|
  {
    var s := [c] + t;
    if t != [] {
      var n := |t| - 1;
      assert s[..n + 1] == [c] + t[..n];
      if t[n] == 0xff {
        BoundFromFront(c, t[..n]);
      } else {
        assert s[..n + 1] + [s[n + 1] + 1] == [c] + (t[..n] + [t[n] + 1]);
      }
    } else {
      assert s[..0] == [] && s == [c];
    }
  }

  /** What the range scan selects. */
  predicate InRange(x: Text, lo: Text, hi: Text) {
    !Less(x, lo) && (hi != [] ==> Less(x, hi))
  }

  /** The range [s, prefixUpperBound(s)) holds exactly the strings with prefix s, also when s is all 0xff. */
  lemma {:induction false} RangeIsPrefix(s: Text, x: Text)
    ensures InRange(x, s, UpperBound(s)) <==> s <= x
    decreases |s|
  {
    if s != [] {
      assert s == [s[0]] + s[1..];
      BoundFromFront(s[0], s[1..]);
      if x != [] {
        assert x == [x[0]] + x[1..];
        RangeIsPrefix(s[1..], x[1..]);
        assert s <= x <==> s[0] == x[0] && s[1..] <= x[1..];
        var u := UpperBound(s[1..]);
        if u != [] {
          var hi := [s[0]] + u;
          assert hi[1..] == u;
        } else if s[0] < 0xff {
          var hi := [s[0] + 1];
          assert UpperBound(s) == hi && hi[1..] == [];
          assert !Less(x[1..], hi[1..]);
          assert Less(x, hi) <==> x[0] <= s[0];
        }
      }
    }
  }

  // ---------------------------------------------------------------- paths

  /** strings.LastIndexAny over the given separators, or -1. */
  function LastOf(p: Text, seps: set<Byte>): (i: int)
    ensures -1 <= i < |p|
    ensures i >= 0 ==> p[i] in seps
    ensures forall j :: i < j < |p| ==> p[j] !in seps
  {
    if p == [] then -1
    else if p[|p| - 1] in seps then |p| - 1
    else LastOf(p[..|p| - 1], seps)
  }

  /** strings.IndexAny, or the length if there is none. */
  function FirstOf(p: Text, seps: set<Byte>): (i: nat)
    ensures i <= |p|
    ensures i < |p| ==> p[i] in seps
    ensures forall j :: 0 <= j < i ==> p[j] !in seps
  {
    if p == [] then 0 else if p[0] in seps then 0 else 1 + FirstOf(p[1..], seps)
  }

  /** filepath.Dir of a clean absolute path: what the walker stores as parent_dir. */
  function Dir(p: Text): Text {
    var i := LastOf(p, {SEP});
    if i <= 0 then [SEP] else p[..i]
  }

  function BaseName(p: Text): Text {
    p[LastOf(p, {SEP, BACKSLASH}) + 1..]
  }

  /** An absolute path in the form filepath.Clean gives, other than the root. */
  predicate Clean(p: Text) {
    |p| >= 2 && p[0] == SEP && p[|p| - 1] != SEP && forall i :: 0 <= i < |p| - 1 ==> !(p[i] == SEP && p[i + 1] == SEP)
  }

  function ChildPrefix(folder: Text): Text {
    if folder == [SEP] then [SEP] else folder + [SEP]
  }

  /** The first path segment below the folder. */
  function FirstSegment(rel: Text): (seg: Text)
    ensures forall i :: 0 <= i < |seg| ==> seg[i] != SEP && seg[i] != BACKSLASH
  {
    rel[..FirstOf(rel, {SEP, BACKSLASH})]
  }

  // ---------------------------------------------------------------- the listing

  datatype Row = Row(path: Text, live: bool)

  datatype Entry = Entry(name: Text, path: Text, isDir: bool, file: int)

  /** Some live file's parent lies below the folder through the segment `seg`. */
  ghost predicate HasDir(files: map<int, Row>, folder: Text, seg: Text) {
    seg != [] && exists f :: f in files && files[f].live && LeadsTo(Dir(files[f].path), ChildPrefix(folder), seg)
  }

  predicate LeadsTo(parent: Text, prefix: Text, seg: Text) {
    prefix <= parent && |parent| > |prefix| && FirstSegment(parent[|prefix|..]) == seg
  }

  /** What the two queries make of the table. */
  ghost predicate IsEntry(files: map<int, Row>, folder: Text, e: Entry) {
    if e.isDir then IsDirEntry(files, folder, e) else IsFileEntry(files, folder, e)
  }

  ghost predicate IsDirEntry(files: map<int, Row>, folder: Text, e: Entry) {
    e.file == 0 && e.path == ChildPrefix(folder) + e.name && HasDir(files, folder, e.name)
  }

  predicate IsFileEntry(files: map<int, Row>, folder: Text, e: Entry) {
    && e.file in files && files[e.file].live && Dir(files[e.file].path) == folder
    && e.path == files[e.file].path && e.name == BaseName(e.path)
  }

  /** The tree's own notion: a live file directly in the folder, or a subdirectory that holds one. */
  ghost predicate IsChild(files: map<int, Row>, folder: Text, e: Entry) {
    && e.name != [] && SEP !in e.name && e.path == ChildPrefix(folder) + e.name
    && if e.isDir then e.file == 0 && exists f :: f in files && files[f].live && e.path + [SEP] <= files[f].path
       else e.file in files && files[e.file].live && files[e.file].path == e.path
  }

  /** All live paths are clean and free of backslashes. */
  ghost predicate CleanTree(files: map<int, Row>) {
    forall f :: f in files && files[f].live ==> Clean(files[f].path) && BACKSLASH !in files[f].path
  }

  lemma DirOfClean(p: Text)
    requires Clean(p)
    ensures var i := LastOf(p, {SEP});
            0 <= i < |p| - 1 && p == ChildPrefix(Dir(p)) + p[i + 1..] && SEP !in p[i + 1..]
            && ChildPrefix(Dir(p)) == p[..i + 1]
  {
    var i := LastOf(p, {SEP});
    assert p[0] in {SEP};
    assert p[|p| - 1] !in {SEP};
    PrefixOfDir(p, i);
    assert p == p[..i + 1] + p[i + 1..];
  }

  lemma PrefixOfDir(p: Text, i: int)
    requires Clean(p) && i == LastOf(p, {SEP}) && 0 <= i < |p| - 1
    ensures ChildPrefix(Dir(p)) == p[..i + 1]
  {
    hide LastOf;
    assert p[i] in {SEP};
    assert p[..i + 1] == p[..i] + [SEP];
    assert !(p[0] == SEP && p[1] == SEP);
    assert i != 1;
    if i == 0 { assert p[..1] == [SEP]; }
  }

  /** The last separator splits a path in one way only. */
  lemma SplitOnce(p: Text, front: Text, name: Text)
    requires p == front + name && front != [] && front[|front| - 1] == SEP && SEP !in name
    ensures LastOf(p, {SEP}) == |front| - 1
  {
    var i := LastOf(p, {SEP});
    assert p[|front| - 1] == SEP;
    assert SEP in {SEP};
    assert forall j :: |front| <= j < |p| ==> p[j] == name[j - |front|];
  }

  lemma DirectFiles(p: Text, folder: Text)
    requires Clean(p) && (folder == [SEP] || Clean(folder))
    ensures Dir(p) == folder <==> exists name :: SEP !in name && p == ChildPrefix(folder) + name
  {
    DirOfClean(p);
    var i := LastOf(p, {SEP});
    if Dir(p) == folder { assert SEP !in p[i + 1..] && p == ChildPrefix(folder) + p[i + 1..]; }
    if name :| SEP !in name && p == ChildPrefix(folder) + name {
      SplitOnce(p, ChildPrefix(folder), name);
      assert p[..i + 1] == ChildPrefix(folder);
      assert p[..i] == ChildPrefix(folder)[..i];
    }
  }

  lemma BaseOfClean(p: Text)
    requires Clean(p) && BACKSLASH !in p
    ensures LastOf(p, {SEP, BACKSLASH}) == LastOf(p, {SEP})
  {
    var i, j := LastOf(p, {SEP, BACKSLASH}), LastOf(p, {SEP});
    assert p[0] in {SEP};
    assert p[i] == SEP by { assert p[i] in p; }
    assert p[i] in {SEP} && p[j] in {SEP, BACKSLASH};
  }

  /**
   A file's parent is the folder and its name the base name exactly when the path is the folder's prefix and that name.
   */
  lemma OneFileChild(p: Text, folder: Text, name: Text)
    requires Clean(p) && BACKSLASH !in p && (folder == [SEP] || Clean(folder))
    ensures Dir(p) == folder && name == BaseName(p) <==> name != [] && SEP !in name && p == ChildPrefix(folder) + name
  {
    hide Clean;
    DirOfClean(p);
    BaseOfClean(p);
    DirectFiles(p, folder);
    var i := LastOf(p, {SEP});
    if SEP !in name && p == ChildPrefix(folder) + name {
      SplitOnce(p, ChildPrefix(folder), name);
      assert p[i + 1..] == name;
    }
  }

  lemma FileChildren(files: map<int, Row>, folder: Text, e: Entry)
    requires CleanTree(files) && (folder == [SEP] || Clean(folder)) && !e.isDir
    ensures IsEntry(files, folder, e) <==> IsChild(files, folder, e)
  {
    if e.file in files && files[e.file].live && files[e.file].path == e.path {
      OneFileChild(e.path, folder, e.name);
    }
  }

  /** A parent that leads through `seg`: the path goes on below prefix + seg. */
  lemma LeadsDown(p: Text, prefix: Text, seg: Text)
    requires Clean(p) && BACKSLASH !in p && prefix != [] && prefix[|prefix| - 1] == SEP && seg != []
    requires LeadsTo(Dir(p), prefix, seg)
    ensures SEP !in seg && prefix + seg + [SEP] <= p
  {
    DirOfClean(p);
    var i := LastOf(p, {SEP});
    var d := Dir(p);
    assert p[i] in {SEP} && |d| >= 2;
    assert d == p[..i];
    hide Clean, Dir, LastOf;
    var rel := d[|prefix|..];
    assert d == prefix + rel && seg == rel[..FirstOf(rel, {SEP, BACKSLASH})];
    SegmentEnds(p, i, prefix, rel, seg);
  }

  /** The first segment of a parent's path relative to the prefix is followed by a separator in the path. */
  lemma SegmentEnds(p: Text, i: nat, prefix: Text, rel: Text, seg: Text)
    requires i < |p| && p[i] == SEP && p[..i] == prefix + rel && BACKSLASH !in p
    requires seg == rel[..FirstOf(rel, {SEP, BACKSLASH})]
    ensures SEP !in seg && prefix + seg + [SEP] <= p
  {
    var n := FirstOf(rel, {SEP, BACKSLASH});
    var k := |prefix| + n;
    hide FirstOf;
    assert p[..k] == prefix + seg;
    if n < |rel| { assert p[k] == p[..i][k] == rel[n] && p[k] in p; }
    assert p[..k + 1] == p[..k] + [p[k]];
  }

  /** A path that goes on below prefix + seg: its parent leads through `seg`. */
  lemma LeadsUp(p: Text, prefix: Text, seg: Text)
    requires Clean(p) && BACKSLASH !in p && prefix != [] && prefix[|prefix| - 1] == SEP && seg != []
    requires SEP !in seg && prefix + seg + [SEP] <= p
    ensures LeadsTo(Dir(p), prefix, seg)
  {
    hide Clean;
    DirOfClean(p);
    var i := LastOf(p, {SEP});
    var k := |prefix| + |seg|;
    assert p[k] == (prefix + seg + [SEP])[k] == SEP;
    assert p[k] in {SEP};
    assert k <= i;
    var d := Dir(p);
    assert d == p[..i];
    assert d[..k] == p[..k] == prefix + seg;
    var rel := d[|prefix|..];
    assert rel[..|seg|] == seg;
    if k < i { assert rel[|seg|] == p[k]; }
    NoStopIn(p, seg, |prefix|);
    FirstStop(rel, seg);
  }

  lemma NoStopIn(p: Text, seg: Text, at: nat)
    requires BACKSLASH !in p && SEP !in seg && at + |seg| <= |p| && p[at..at + |seg|] == seg
    ensures BACKSLASH !in seg
  {
    forall j | 0 <= j < |seg|
      ensures seg[j] != BACKSLASH
    {
      assert seg[j] == p[at + j] && p[at + j] in p;
    }
  }

  lemma FirstStop(rel: Text, seg: Text)
    requires SEP !in seg && BACKSLASH !in seg && seg <= rel && (|rel| > |seg| ==> rel[|seg|] == SEP)
    ensures FirstSegment(rel) == seg
  {
    assert forall j :: 0 <= j < |seg| ==> rel[j] == seg[j] && seg[j] in seg;
  }

  /** A parent leads through `seg` exactly when the path goes on below prefix + seg. */
  lemma LeadsIff(p: Text, prefix: Text, seg: Text)
    requires Clean(p) && BACKSLASH !in p && prefix != [] && prefix[|prefix| - 1] == SEP && seg != []
    ensures LeadsTo(Dir(p), prefix, seg) <==> SEP !in seg && prefix + seg + [SEP] <= p
  {
    if LeadsTo(Dir(p), prefix, seg) { LeadsDown(p, prefix, seg); }
    if SEP !in seg && prefix + seg + [SEP] <= p { LeadsUp(p, prefix, seg); }
  }

  lemma DirChildren(files: map<int, Row>, folder: Text, e: Entry)
    requires CleanTree(files) && e.isDir
    ensures IsEntry(files, folder, e) <==> IsChild(files, folder, e)
  {
    var prefix := ChildPrefix(folder);
    if e.path == prefix + e.name && e.name != [] {
      forall f | f in files && files[f].live
        ensures LeadsTo(Dir(files[f].path), prefix, e.name) <==> SEP !in e.name && e.path + [SEP] <= files[f].path
      {
        LeadsIff(files[f].path, prefix, e.name);
      }
    }
  }

  /** The listing of a folder is exactly its children in the tree. */
  lemma ListingIsTree(files: map<int, Row>, folder: Text, e: Entry)
    requires CleanTree(files) && (folder == [SEP] || Clean(folder))
    ensures IsEntry(files, folder, e) <==> IsChild(files, folder, e)
  {
    if e.isDir { DirChildren(files, folder, e); } else { FileChildren(files, folder, e); }
  }

  // ---------------------------------------------------------------- the handler

  /** The subdirectory scan: distinct parents in the prefix range, cut down to their first segment. */
  method Subdirectories(files: map<int, Row>, folder: Text) returns (dirs: set<Text>)
    ensures forall seg :: seg in dirs <==> HasDir(files, folder, seg)
  {
    hide UpperBound, Less, Dir, FirstSegment, ChildPrefix;
    var lo := ChildPrefix(folder);
    var hi := PrefixUpperBound(lo);
    dirs := {};
    var rest := files.Keys;
    while exists f :: f in rest
      invariant rest <= files.Keys
      invariant forall seg :: seg in dirs ==> HasDir(files, folder, seg)
      invariant forall f, seg :: f in files && f !in rest && files[f].live && seg != [] ==>
          LeadsTo(Dir(files[f].path), lo, seg) ==> seg in dirs
      decreases |rest|
    {
      var f :| f in rest;
      rest := rest - {f};
      var parent := Dir(files[f].path);
      RangeIsPrefix(lo, parent);
      if files[f].live && InRange(parent, lo, hi) {
        var rel := parent[|lo|..];
        if rel != [] {
          var seg := FirstSegment(rel);
          if seg != [] {
            assert LeadsTo(parent, lo, seg);
            dirs := dirs + {seg};
          }
        }
      }
    }
  }

  ghost predicate NoTwice(entries: seq<Entry>) {
    forall i, j :: 0 <= i < j < |entries| ==> entries[i] != entries[j]
  }

  ghost predicate ByPath(entries: seq<Entry>) {
    forall i, j :: 0 <= i < j < |entries| ==> !Less(entries[j].path, entries[i].path)
  }

  /** The whole listing: every entry once, in path order. */
  ghost predicate IsListing(files: map<int, Row>, folder: Text, all: seq<Entry>) {
    NoTwice(all) && ByPath(all) && forall e :: e in all <==> IsEntry(files, folder, e)
  }

  method DirEntries(files: map<int, Row>, folder: Text) returns (entries: seq<Entry>)
    ensures NoTwice(entries) && forall e :: e in entries <==> e.isDir && IsEntry(files, folder, e)
  {
    hide HasDir;
    var dirs := Subdirectories(files, folder);
    entries := [];
    var rest := dirs;
    while exists seg :: seg in rest
      invariant rest <= dirs && NoTwice(entries)
      invariant forall e :: e in entries ==> e.isDir && IsDirEntry(files, folder, e) && e.name !in rest
      invariant forall seg :: seg in dirs && seg !in rest ==> Entry(seg, ChildPrefix(folder) + seg, true, 0) in entries
      decreases |rest|
    {
      var seg :| seg in rest;
      rest := rest - {seg};
      entries := entries + [Entry(seg, ChildPrefix(folder) + seg, true, 0)];
    }
    forall e: Entry | e.isDir && IsDirEntry(files, folder, e)
      ensures e in entries
    {
      assert e.name in dirs && e == Entry(e.name, ChildPrefix(folder) + e.name, true, 0);
    }
  }

  method FileEntries(files: map<int, Row>, folder: Text) returns (entries: seq<Entry>)
    ensures NoTwice(entries) && forall e :: e in entries <==> !e.isDir && IsEntry(files, folder, e)
  {
    hide Dir, BaseName;
    entries := [];
    var rest := files.Keys;
    while exists f :: f in rest
      invariant rest <= files.Keys && NoTwice(entries)
      invariant forall e :: e in entries ==> !e.isDir && IsFileEntry(files, folder, e) && e.file !in rest
      invariant forall e: Entry :: !e.isDir && IsFileEntry(files, folder, e) && e.file !in rest ==> e in entries
      decreases |rest|
    {
      var f :| f in rest;
      rest := rest - {f};
      var e := Entry(BaseName(files[f].path), files[f].path, false, f);
      if files[f].live && Dir(files[f].path) == folder {
        entries := entries + [e];
      }
      forall x: Entry | !x.isDir && IsFileEntry(files, folder, x) && x.file == f
        ensures x in entries
      {
        assert x == e;
      }
    }
  }

  lemma {:induction false} LessTrans(a: Text, b: Text, c: Text)
    requires !Less(b, a) && !Less(c, b)
    ensures !Less(c, a)
    decreases |a|
  {
    if a != [] && b != [] && c != [] && a[0] == b[0] == c[0] { LessTrans(a[1..], b[1..], c[1..]); }
  }

  lemma {:induction false} LessTotal(a: Text, b: Text)
    ensures !(Less(a, b) && Less(b, a)) && (Less(a, b) || Less(b, a) || a == b)
    decreases |a|
  {
    if a != [] && b != [] {
      LessTotal(a[1..], b[1..]);
      assert a == [a[0]] + a[1..] && b == [b[0]] + b[1..];
    }
  }

  /** sort.Slice by path, as an insertion. */
  method SortByPath(entries: seq<Entry>) returns (out: seq<Entry>)
    requires NoTwice(entries)
    ensures NoTwice(out) && ByPath(out) && |out| == |entries| && forall e :: e in out <==> e in entries
  {
    out := [];
    assert NoTwice(out) && ByPath(out);
    hide Less, NoTwice, ByPath;
    for i := 0 to |entries|
      invariant NoTwice(out) && ByPath(out) && |out| == i
      invariant forall e :: e in out <==> e in entries[..i]
    {
      assert entries[i] !in entries[..i] by { NotBefore(entries, i); }
      assert entries[..i + 1] == entries[..i] + [entries[i]];
      out := InsertByPath(out, entries[i]);
    }
    assert entries[..|entries|] == entries;
  }

  lemma NotBefore(entries: seq<Entry>, i: nat)
    requires NoTwice(entries) && i < |entries|
    ensures entries[i] !in entries[..i]
  {
  }

  method InsertByPath(sorted: seq<Entry>, e: Entry) returns (out: seq<Entry>)
    requires NoTwice(sorted) && ByPath(sorted) && e !in sorted
    ensures NoTwice(out) && ByPath(out) && |out| == |sorted| + 1 && forall x :: x in out <==> x in sorted || x == e
  {
    hide Less;
    var p := 0;
    while p < |sorted| && !Less(e.path, sorted[p].path)
      invariant p <= |sorted| && forall i :: 0 <= i < p ==> !Less(e.path, sorted[i].path)
    {
      p := p + 1;
    }
    forall i | p <= i < |sorted|
      ensures !Less(sorted[i].path, e.path)
    {
      LessTotal(e.path, sorted[p].path);
      if i > p { LessTrans(e.path, sorted[p].path, sorted[i].path); }
    }
    out := sorted[..p] + [e] + sorted[p..];
    assert sorted == sorted[..p] + sorted[p..];
  }

  datatype Status = OK | NotFound

  /** MaxItems: 50 unless asked for, never more than 500, and else what was asked for. */
  function PageSize(maxItems: int): (n: nat)
    ensures 1 <= n <= 500 && (1 <= maxItems <= 500 <==> n == maxItems) && (maxItems <= 0 ==> n == 50)
    ensures maxItems >= 500 ==> n == 500
  {
    if maxItems <= 0 then 50 else if maxItems > 500 then 500 else maxItems
  }

  function Page(all: seq<Entry>, cursor: nat, size: nat): seq<Entry> {
    var from := if cursor > |all| then |all| else cursor;
    if from + size >= |all| then all[from..] else all[from..from + size]
  }

  function NextCursor(all: seq<Entry>, cursor: nat, size: nat): Option<nat> {
    var from := if cursor > |all| then |all| else cursor;
    if from + size >= |all| then None else Some(from + size)
  }

  /** Browse, for a normalized folder path and a decoded cursor (0 for none or a malformed one). */
  method BrowseFolder(files: map<int, Row>, folder: Text, maxItems: int, cursor: nat)
    returns (status: Status, entries: seq<Entry>, next: Option<nat>, ghost all: seq<Entry>)
    ensures IsListing(files, folder, all)
    ensures status == NotFound <==> all == [] && folder != [SEP]
    ensures status == OK ==>
        entries == Page(all, cursor, PageSize(maxItems)) && next == NextCursor(all, cursor, PageSize(maxItems))
    ensures status == NotFound ==> entries == [] && next == None
  {
    hide ByPath, IsEntry;
    var size := PageSize(maxItems);
    var dirs := DirEntries(files, folder);
    var direct := FileEntries(files, folder);
    assert NoTwice(dirs + direct) by { JoinedNoTwice(dirs, direct); }
    var sorted := SortByPath(dirs + direct);
    all := sorted;
    if |sorted| == 0 && folder != [SEP] { return NotFound, [], None, all; }
    var from := if cursor > |sorted| then |sorted| else cursor;
    var end := from + size;
    next := None;
    if end >= |sorted| {
      end := |sorted|;
    } else {
      next := Some(end);
    }
    status, entries := OK, sorted[from..end];
  }

  lemma JoinedNoTwice(a: seq<Entry>, b: seq<Entry>)
    requires NoTwice(a) && NoTwice(b) && forall e :: e in a ==> e !in b
    ensures NoTwice(a + b)
  {
    var all := a + b;
    forall i, j | 0 <= i < j < |all|
      ensures all[i] != all[j]
    {
      if i < |a| <= j { assert all[i] in a && all[j] in b; }
    }
  }

  // ---------------------------------------------------------------- following cursors

  /** The pages a client gets by following cursors from `cursor` on. */
  function Follow(all: seq<Entry>, cursor: nat, size: nat): (pages: seq<seq<Entry>>)
    requires size >= 1 && cursor <= |all|
    decreases |all| - cursor
  {
    match NextCursor(all, cursor, size)
    case None => [Page(all, cursor, size)]
    case Some(next) => [Page(all, cursor, size)] + Follow(all, next, size)
  }

  /** Following cursors from `cursor` on brings the rest of the listing, in ceiling(rest / size) pages, at least one. */
  lemma {:induction false} FollowRest(all: seq<Entry>, cursor: nat, size: nat)
    requires size >= 1 && cursor <= |all|
    ensures Concat(Follow(all, cursor, size)) == all[cursor..]
    ensures forall p :: p in Follow(all, cursor, size) ==> |p| <= size
    ensures var n := |Follow(all, cursor, size)|;
            n >= 1 && (n - 1) * size <= |all| - cursor && (n > 1 ==> (n - 1) * size < |all| - cursor)
              && |all| - cursor <= n * size
    decreases |all| - cursor
  {
    match NextCursor(all, cursor, size)
    case None =>
      assert Follow(all, cursor, size)[1..] == [];
      assert Concat([Page(all, cursor, size)]) == Page(all, cursor, size) + Concat([]);
    case Some(next) =>
      var page, rest := Page(all, cursor, size), Follow(all, next, size);
      assert Follow(all, cursor, size) == [page] + rest;
      assert next == cursor + size < |all| && page == all[cursor..next];
      assert Concat([page] + rest) == page + Concat(rest) by { assert ([page] + rest)[1..] == rest; }
      hide Follow, Concat, Page, NextCursor;
      FollowRest(all, next, size);
      assert all[cursor..] == all[cursor..next] + all[next..];
      PageCount(|rest|, size, |all| - next);
  }

  // ---------------------------------------------------------------- the same listing on every call

  ghost predicate PathsDistinct(entries: seq<Entry>) {
    forall x, y :: x in entries && y in entries && x.path == y.path ==> x == y
  }

  /** Path order fixes the listing when no two entries share a path, so pages of separate calls fit together. */
  lemma {:induction false} ListingIsUnique(a: seq<Entry>, b: seq<Entry>)
    requires NoTwice(a) && ByPath(a) && NoTwice(b) && ByPath(b) && PathsDistinct(a)
    requires forall e :: e in a <==> e in b
    ensures a == b
    decreases |a|
  {
    BothEmpty(a, b);
    if a != [] {
      assert a[0] in b && b[0] in b;
      hide Less;
      LessTotal(a[0].path, b[0].path);
      assert a[0] == b[0];
      RestAgrees(a, b);
      ListingIsUnique(a[1..], b[1..]);
      assert a == [a[0]] + a[1..] && b == [b[0]] + b[1..];
    }
  }

  lemma BothEmpty(a: seq<Entry>, b: seq<Entry>)
    requires forall e :: e in a <==> e in b
    ensures a == [] <==> b == []
  {
    if a != [] { assert a[0] in a; }
    if b != [] { assert b[0] in b; }
  }

  lemma RestAgrees(a: seq<Entry>, b: seq<Entry>)
    requires NoTwice(a) && NoTwice(b) && a != [] && b != [] && a[0] == b[0]
    requires forall e :: e in a <==> e in b
    ensures forall e :: e in a[1..] <==> e in b[1..]
  {
    forall e | e in a[1..]
      ensures e in b[1..]
    {
      assert e in a;
    }
    forall e | e in b[1..]
      ensures e in a[1..]
    {
      assert e in b;
    }
  }

  /** In a tree where no live file is also a directory, no two entries of a listing share a path. */
  lemma TreePathsDistinct(files: map<int, Row>, folder: Text, all: seq<Entry>)
    requires CleanTree(files) && (folder == [SEP] || Clean(folder)) && IsListing(files, folder, all)
    requires forall f, g :: f in files && g in files && files[f].path == files[g].path ==> f == g
    requires forall f, g :: f in files && g in files && files[f].live && files[g].live ==>
        !(files[f].path + [SEP] <= files[g].path)
    ensures PathsDistinct(all)
  {
    hide NoTwice, ByPath, Clean, Dir, BaseName;
    forall x, y | x in all && y in all && x.path == y.path
      ensures x == y
    {
      ListingIsTree(files, folder, x);
      ListingIsTree(files, folder, y);
      assert x.name == x.path[|ChildPrefix(folder)|..] == y.name;
    }
  }

  lemma PageCount(n: nat, size: nat, left: int)
    requires n >= 1 && size >= 1 && left >= 1 && (n - 1) * size <= left <= n * size && (n > 1 ==> (n - 1) * size < left)
    ensures n * size < left + size <= (n + 1) * size
  {
    assert n * size == (n - 1) * size + size;
    assert (n + 1) * size == n * size + size;
  }

  /** Every entry is on exactly one page, in path order, however the client sizes its pages. */
  lemma PagesCoverListing(files: map<int, Row>, folder: Text, all: seq<Entry>, size: nat)
    requires IsListing(files, folder, all) && size >= 1
    ensures var pages := Follow(all, 0, size);
            && Concat(pages) == all && NoTwice(Concat(pages)) && ByPath(Concat(pages))
            && (forall e :: e in Concat(pages) <==> IsEntry(files, folder, e))
            && (all == [] ==> |pages| == 1) && (all != [] ==> |pages| == (|all| + size - 1) / size)
  {
    hide ByPath, IsEntry, Follow, Concat;
    FollowRest(all, 0, size);
    assert all[0..] == all;
    var n := |Follow(all, 0, size)|;
    if n > 1 { AtLeast(n - 1, size); }
    if all != [] { Ceiling(|all|, size, n); }
  }

  lemma Ceiling(len: nat, size: nat, n: nat)
    requires len >= 1 && size >= 1 && n >= 1 && (n - 1) * size < len <= n * size
    ensures (len + size - 1) / size == n
  {
    var r := len - 1 - (n - 1) * size;
    assert len + size - 1 == n * size + r by { assert n * size == (n - 1) * size + size; }
    assert 0 <= r < size;
    DivUnique(len + size - 1, size, n, r);
  }

  lemma DivUnique(x: nat, size: nat, n: nat, r: nat)
    requires size >= 1 && x == n * size + r && r < size
    ensures x / size == n
  {
    assert (n - x / size) * size == x % size - r;
    if n > x / size { AtLeast(n - x / size, size); }
    if n < x / size { AtLeast(x / size - n, size); }
  }

  lemma AtLeast(d: int, size: int)
    requires d >= 1 && size >= 0
    ensures d * size >= size
  {
    assert d * size == size + (d - 1) * size;
  }

  // ---------------------------------------------------------------- a client that follows the cursors

  /** No live file is also a directory, and no two files have one path. */
  ghost predicate FilesApart(files: map<int, Row>) {
    && (forall f, g :: f in files && g in files && files[f].path == files[g].path ==> f == g)
    && (forall f, g :: f in files && g in files && files[f].live && files[g].live ==>
      !(files[f].path + [SEP] <= files[g].path))
  }

  lemma CallsAgree(files: map<int, Row>, folder: Text, a: seq<Entry>, b: seq<Entry>)
    requires CleanTree(files) && (folder == [SEP] || Clean(folder)) && FilesApart(files)
    requires IsListing(files, folder, a) && IsListing(files, folder, b)
    ensures a == b
  {
    TreePathsDistinct(files, folder, a);
    hide ByPath, NoTwice, IsEntry, CleanTree, Clean, PathsDistinct, FilesApart;
    ListingIsUnique(a, b);
  }

  lemma NextPage(all: seq<Entry>, seen: nat, size: nat)
    requires seen <= |all| && NextCursor(all, seen, size).Some?
    ensures NextCursor(all, seen, size).value == seen + size < |all|
    ensures all[..seen] + Page(all, seen, size) == all[..seen + size]
  {
  }

  lemma LastPage(all: seq<Entry>, seen: nat, size: nat)
    requires seen <= |all| && NextCursor(all, seen, size).None?
    ensures all[..seen] + Page(all, seen, size) == all && seen + size >= |all|
  {
  }

  /** What the client has after a number of pages. */
  ghost predicate Followed(all: seq<Entry>, size: nat, pages: nat, listing: seq<Entry>, next: Option<nat>) {
    var seen := (pages - 1) * size;
    pages >= 1 && 0 <= seen <= |all| && (pages > 1 ==> seen < |all|)
    && listing == all[..seen] + Page(all, seen, size) && next == NextCursor(all, seen, size)
  }

  lemma FollowedOn(all: seq<Entry>, size: nat, pages: nat, listing: seq<Entry>, next: Option<nat>)
    requires Followed(all, size, pages, listing, next) && next.Some?
    ensures next.value < |all|
    ensures Followed(all, size, pages + 1, listing + Page(all, next.value, size), NextCursor(all, next.value, size))
  {
    hide Page, NextCursor;
    NextPage(all, (pages - 1) * size, size);
    assert pages * size == (pages - 1) * size + size;
  }

  lemma FollowedAll(all: seq<Entry>, size: nat, pages: nat, listing: seq<Entry>)
    requires size >= 1 && Followed(all, size, pages, listing, None)
    ensures listing == all && pages == if all == [] then 1 else (|all| + size - 1) / size
  {
    hide Page, NextCursor;
    LastPage(all, (pages - 1) * size, size);
    assert pages * size == (pages - 1) * size + size;
    if pages > 1 { AtLeast(pages - 1, size); }
    if all != [] { Ceiling(|all|, size, pages); }
  }

  /** A client that calls Browse with one page size, follows every cursor, and puts the pages together. */
  method BrowseAll(files: map<int, Row>, folder: Text, maxItems: int)
    returns (status: Status, listing: seq<Entry>, pages: nat)
    requires CleanTree(files) && (folder == [SEP] || Clean(folder)) && FilesApart(files)
    ensures IsListing(files, folder, listing)
    ensures status == NotFound <==> listing == [] && folder != [SEP]
    ensures var size := PageSize(maxItems);
            pages == if listing == [] then 1 else (|listing| + size - 1) / size
  {
    var size := PageSize(maxItems);
    ghost var all;
    var next;
    status, listing, next, all := BrowseFolder(files, folder, maxItems, 0);
    pages := 1;
    assert Followed([], size, 1, [], None);
    assert Followed(all, size, 1, Page(all, 0, size), NextCursor(all, 0, size));
    hide IsListing, CleanTree, Clean, FilesApart, Page, NextCursor, Followed;
    while next.Some?
      invariant status == NotFound <==> all == [] && folder != [SEP]
      invariant IsListing(files, folder, all) && Followed(all, size, pages, listing, next)
      decreases if next.Some? then |all| - next.value else -1
    {
      var page, after, more;
      ghost var again;
      FollowedOn(all, size, pages, listing, next);
      more, page, after, again := BrowseFolder(files, folder, maxItems, next.value);
      CallsAgree(files, folder, all, again);
      listing, next, pages := listing + page, after, pages + 1;
    }
    FollowedAll(all, size, pages, listing);
  }
}
