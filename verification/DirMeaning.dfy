/** What a synchronisation does and prints, path by path, in terms of the two trees alone. */
module DirMeaning {
  import opened DirSync

  /** What a tree has at a path of one name or more. */
  function Lookup(entries: map<Name, Node>, p: Path): Option<Node>
    decreases |p|
  {
    if p == [] || p[0] !in entries then None
    else if |p| == 1 then Some(entries[p[0]])
    else if entries[p[0]].File? then None
    else Lookup(entries[p[0]].entries, p[1..])
  }

  predicate IsFile(o: Option<Node>) {
    o.Some? && o.value.File?
  }

  predicate IsDir(o: Option<Node>) {
    o.Some? && o.value.Dir?
  }

  /** The path leads through a file. */
  ghost predicate UnderFile(entries: map<Name, Node>, p: Path) {
    exists i :: 0 < i < |p| && IsFile(Lookup(entries, p[..i]))
  }

  // ---------------------------------------------------------------- the meaning of the lines

  /** Size or time tell the source file from what the destination has. */
  predicate LooksDifferent(s: Node, d: Node, here: Path, w: World)
    requires s.File?
  {
    s.mtime != d.mtime || |s.content| != (if d.File? then |d.content| else w.dirSize(here))
  }

  /** The directory entry at q has to be created, recreated or removed. */
  predicate EntryChanges(src: map<Name, Node>, dst: map<Name, Node>, q: Path) {
    var s, d := Lookup(src, q), Lookup(dst, q);
    (s.Some? && d.None?) || (s.None? && d.Some?) || (IsDir(s) && IsFile(d))
  }

  ghost predicate SomeEntryChanges(src: map<Name, Node>, dst: map<Name, Node>, p: Path) {
    exists k: Name :: EntryChanges(src, dst, p + [k])
  }

  /** The destination's time at p once everything is copied: that of the writing if it was
      created, recreated, overwritten, or a directory that changed, else what it was. */
  ghost function TimeBefore(src: map<Name, Node>, dst: map<Name, Node>, p: Path, here: Path, w: World): int
    requires Lookup(src, p).Some?
  {
    var s, d := Lookup(src, p).value, Lookup(dst, p);
    if d.None? || (s.Dir? && d.value.File?) then w.clock(here)
    else if s.File? && d.value.File? then (if LooksDifferent(s, d.value, here, w) then w.clock(here) else d.value.mtime)
    else if s.Dir? && SomeEntryChanges(src, dst, p) then w.clock(here)
    else d.value.mtime
  }

  /** When a line with this tag is printed for path p:
      '+' for what only the source has; 'o' for a source file that looks different;
      '-' for what only the destination has, unless it hides behind a source file, and for a
      file in the way of a directory; 't' when the times still differ; 'p' when the kinds or
      modes of what was there still differ. */
  ghost predicate Announced(tag: char, src: map<Name, Node>, dst: map<Name, Node>, p: Path, here: Path, w: World) {
    var s, d := Lookup(src, p), Lookup(dst, p);
    match tag
    case '+' => s.Some? && d.None?
    case 'o' => IsFile(s) && d.Some? && LooksDifferent(s.value, d.value, here, w)
    case '-' => (s.None? && d.Some? && !UnderFile(src, p)) || (IsDir(s) && IsFile(d))
    case 't' => s.Some? && TimeBefore(src, dst, p, here, w) != s.value.mtime
    case 'p' => s.Some? && d.Some? && !(s.value.Dir? && d.value.File?)
                && (s.value.File? != d.value.File? || s.value.mode != d.value.mode)
    case _ => false
  }

  // ---------------------------------------------------------------- paths

  /** Below a directory the path goes on in its entries; below anything else there is nothing. */
  function Under(o: Option<Node>): map<Name, Node> {
    if IsDir(o) then o.value.entries else map[]
  }

  lemma LookupCons(entries: map<Name, Node>, k: Name, p: Path)
    ensures Lookup(entries, [k] + p) == if p == [] then Find(entries, k) else Lookup(Under(Find(entries, k)), p)
  {
    assert ([k] + p)[1..] == p;
  }

  lemma {:induction false} LookupSnoc(entries: map<Name, Node>, p: Path, k: Name)
    requires p != []
    ensures Lookup(entries, p + [k]) == Find(Under(Lookup(entries, p)), k)
    decreases |p|
  {
    var rest := p[1..];
    assert p == [p[0]] + rest && p + [k] == [p[0]] + (rest + [k]);
    LookupCons(entries, p[0], rest + [k]);
    LookupCons(entries, p[0], rest);
    if rest != [] {
      LookupSnoc(Under(Find(entries, p[0])), rest, k);
    } else {
      assert rest + [k] == [k];
      LookupCons(Under(Find(entries, p[0])), k, []);
    }
  }

  lemma UnderFileCons(entries: map<Name, Node>, k: Name, p: Path)
    requires p != []
    ensures UnderFile(entries, [k] + p) <==> IsFile(Find(entries, k)) || UnderFile(Under(Find(entries, k)), p)
  {
    var q, sub := [k] + p, Under(Find(entries, k));
    assert q[..1] == [k] + [];
    LookupCons(entries, k, []);
    forall i | 1 < i < |q|
      ensures Lookup(entries, q[..i]) == Lookup(sub, p[..i - 1])
    {
      assert q[..i] == [k] + p[..i - 1];
      LookupCons(entries, k, p[..i - 1]);
    }
    if UnderFile(sub, p) {
      var i :| 0 < i < |p| && IsFile(Lookup(sub, p[..i]));
      assert IsFile(Lookup(entries, q[..i + 1]));
    }
    if IsFile(Find(entries, k)) {
      assert IsFile(Lookup(entries, q[..1]));
    }
    if UnderFile(entries, q) {
      var i :| 0 < i < |q| && IsFile(Lookup(entries, q[..i]));
      if i > 1 { assert IsFile(Lookup(sub, p[..i - 1])); }
    }
  }

  /** What is announced for a path depends on the entries below its first name. */
  lemma AnnouncedCons(tag: char, src: map<Name, Node>, dst: map<Name, Node>, k: Name, p: Path, here: Path, w: World)
    requires p != [] && IsDir(Find(src, k))
    ensures Announced(tag, src, dst, [k] + p, here, w)
       <==> Announced(tag, Under(Find(src, k)), Under(Find(dst, k)), p, here, w)
  {
    LookupCons(src, k, p);
    LookupCons(dst, k, p);
    UnderFileCons(src, k, p);
    SomeChangesCons(src, dst, k, p);
  }

  lemma SomeChangesCons(src: map<Name, Node>, dst: map<Name, Node>, k: Name, p: Path)
    requires p != []
    ensures SomeEntryChanges(src, dst, [k] + p) <==> SomeEntryChanges(Under(Find(src, k)), Under(Find(dst, k)), p)
  {
    forall j: Name
      ensures EntryChanges(src, dst, ([k] + p) + [j]) <==> EntryChanges(Under(Find(src, k)), Under(Find(dst, k)), p + [j])
    {
      assert ([k] + p) + [j] == [k] + (p + [j]);
      LookupCons(src, k, p + [j]);
      LookupCons(dst, k, p + [j]);
    }
  }

  // ---------------------------------------------------------------- lines stay below their directory

  ghost predicate AllBelow(lines: set<Line>, path: Path, more: nat) {
    forall l :: l in lines ==> |path| + more <= |l.path| && l.path[..|path|] == path
  }

  lemma BelowChild(lines: set<Line>, path: Path, k: Name)
    requires AllBelow(lines, path + [k], 0)
    ensures AllBelow(lines, path, 1) && forall l :: l in lines ==> |path| < |l.path| && l.path[|path|] == k
  {
    forall l | l in lines
      ensures |path| < |l.path| && l.path[..|path|] == path && l.path[|path|] == k
    {
      var head := l.path[..|path + [k]|];
      assert head == path + [k];
      assert l.path[|path|] == head[|path|];
      assert l.path[..|path|] == head[..|path|];
    }
  }

  lemma {:induction false} RemovalBelow(d: Node, path: Path)
    ensures AllBelow(RemovalLines(d, path), path, 0)
    decreases d, 1
  {
    if d.Dir? { EmptyingBelow(d, path); }
  }

  lemma {:induction false} EmptyingBelow(d: Node, path: Path)
    requires d.Dir?
    ensures AllBelow(EmptyingLines(d, path), path, 1)
    decreases d, 0
  {
    forall k | k in d.entries
      ensures AllBelow(RemovalLines(d.entries[k], path + [k]), path, 1)
    {
      RemovalBelow(d.entries[k], path + [k]);
      BelowChild(RemovalLines(d.entries[k], path + [k]), path, k);
    }
  }

  lemma {:induction false} LinesBelow(src: Node, dst: map<Name, Node>, path: Path, w: World)
    requires src.Dir?
    ensures AllBelow(Lines(src, dst, path, w), path, 1)
    decreases src, 0
  {
    forall k | k in src.entries
      ensures AllBelow(EntryLines(src.entries[k], Find(dst, k), path + [k], w), path, 1)
    {
      EntryBelow(src.entries[k], Find(dst, k), path + [k], w);
      BelowChild(EntryLines(src.entries[k], Find(dst, k), path + [k], w), path, k);
    }
    forall k | k in dst
      ensures AllBelow(RemovalLines(dst[k], path + [k]), path, 1)
    {
      RemovalBelow(dst[k], path + [k]);
      BelowChild(RemovalLines(dst[k], path + [k]), path, k);
    }
  }

  lemma {:induction false} EntryBelow(s: Node, d: Option<Node>, path: Path, w: World)
    ensures AllBelow(EntryLines(s, d, path, w), path, 0)
    decreases s, 1
  {
    if s.Dir? { LinesBelow(s, Under(d), path, w); }
  }

  // ---------------------------------------------------------------- removal

  /** Removing prints '-' for the path itself and for every path below, and nothing else. */
  lemma {:induction false} RemovalMeaning(d: Node, path: Path, p: Path, tag: char)
    ensures Line(tag, path + p) in RemovalLines(d, path) <==>
      tag == '-' && (p == [] || Lookup(Under(Some(d)), p).Some?)
    decreases d, 1
  {
    assert p == [] ==> path + p == path;
    if d.Dir? {
      EmptyingBelow(d, path);
      if p != [] { EmptyingMeaning(d, path, p, tag); }
    }
  }

  lemma {:induction false} EmptyingMeaning(d: Node, path: Path, p: Path, tag: char)
    requires d.Dir? && p != []
    ensures Line(tag, path + p) in EmptyingLines(d, path) <==> tag == '-' && Lookup(d.entries, p).Some?
    decreases d, 0
  {
    var k, rest, l := p[0], p[1..], Line(tag, path + p);
    assert p == [k] + rest && path + p == (path + [k]) + rest;
    LookupCons(d.entries, k, rest);
    if k in d.entries { RemovalMeaning(d.entries[k], path + [k], rest, tag); }
    forall j | j in d.entries && l in RemovalLines(d.entries[j], path + [j])
      ensures j == k
    {
      RemovalBelow(d.entries[j], path + [j]);
      BelowChild(RemovalLines(d.entries[j], path + [j]), path, j);
    }
  }

  // ---------------------------------------------------------------- every line

  lemma DirectCopy(s: Node, d: Option<Node>, path: Path, w: World, tag: char)
    ensures Line(tag, path) in CopyLines(s, d, path, w) <==>
      match tag
      case '+' => d.None?
      case 'o' => s.File? && d.Some? && LooksDifferent(s, d.value, path, w)
      case '-' => s.Dir? && IsFile(d)
      case _ => false
  {
    if s.Dir? { LinesBelow(s, Under(d), path, w); }
  }

  /** The listing of a directory changes when some entry at it does. */
  lemma ListingMeaning(src: map<Name, Node>, dst: map<Name, Node>, p: Path)
    requires p != [] && IsDir(Lookup(src, p)) && IsDir(Lookup(dst, p))
    ensures ListingChanges(Lookup(src, p).value, Lookup(dst, p).value.entries) <==> SomeEntryChanges(src, dst, p)
  {
    var s, d := Lookup(src, p).value, Lookup(dst, p).value.entries;
    forall k: Name
      ensures Lookup(src, p + [k]) == Find(s.entries, k) && Lookup(dst, p + [k]) == Find(d, k)
    {
      LookupSnoc(src, p, k);
      LookupSnoc(dst, p, k);
    }
    if SomeEntryChanges(src, dst, p) {
      var k: Name :| EntryChanges(src, dst, p + [k]);
      assert k in s.entries || k in d;
    }
    if k :| k in s.entries && (k !in d || (s.entries[k].Dir? && d[k].File?)) {
      assert EntryChanges(src, dst, p + [k]);
    }
    if k :| k in d && k !in s.entries {
      assert EntryChanges(src, dst, p + [k]);
    }
  }

  lemma DirectTouch(src: map<Name, Node>, dst: map<Name, Node>, k: Name, path: Path, w: World, tag: char)
    requires k in src
    ensures Line(tag, path) in TouchLines(src[k], Copied(src[k], Find(dst, k), path, w), path) <==>
      (tag == 't' || tag == 'p') && Announced(tag, src, dst, [k], path, w)
  {
    LookupCons(src, k, []);
    LookupCons(dst, k, []);
    assert [k] + [] == [k];
    if src[k].Dir? && IsDir(Find(dst, k)) {
      ListingMeaning(src, dst, [k]);
    }
  }

  /** The lines for the name k itself. */
  lemma DirectMeaning(src: map<Name, Node>, dst: map<Name, Node>, k: Name, path: Path, w: World, tag: char)
    requires k in src
    ensures Line(tag, path) in EntryLines(src[k], Find(dst, k), path, w) <==> Announced(tag, src, dst, [k], path, w)
  {
    LookupCons(src, k, []);
    LookupCons(dst, k, []);
    assert [k] + [] == [k];
    DirectCopy(src[k], Find(dst, k), path, w, tag);
    DirectTouch(src, dst, k, path, w, tag);
  }

  /** A line is printed for a path, at whatever depth, exactly when Announced says so. */
  lemma {:induction false} LineMeaning(src: Node, dst: map<Name, Node>, base: Path, w: World, p: Path, tag: char)
    requires src.Dir? && p != []
    ensures Line(tag, base + p) in Lines(src, dst, base, w) <==> Announced(tag, src.entries, dst, p, base + p, w)
    decreases src
  {
    var k, rest := p[0], p[1..];
    assert p == [k] + rest && base + p == (base + [k]) + rest;
    OnlyByName(src, dst, base, w, p, tag);
    if k in src.entries {
      if rest == [] {
        assert base + p == base + [k] && p == [k];
        DirectMeaning(src.entries, dst, k, base + [k], w, tag);
      } else if src.entries[k].Dir? {
        BelowEntry(src.entries[k], Find(dst, k), base + [k], w, rest, tag);
        LineMeaning(src.entries[k], Under(Find(dst, k)), base + [k], w, rest, tag);
        AnnouncedCons(tag, src.entries, dst, k, rest, base + p, w);
      } else {
        BelowEntry(src.entries[k], Find(dst, k), base + [k], w, rest, tag);
        NothingBelowFile(tag, src.entries, dst, k, rest, base + p, w);
      }
    } else {
      OnlyInDestination(tag, src.entries, dst, k, rest, base, w);
    }
  }

  /** Only the entry of the path's first name prints for it. */
  lemma OnlyByName(src: Node, dst: map<Name, Node>, base: Path, w: World, p: Path, tag: char)
    requires src.Dir? && p != []
    ensures Line(tag, base + p) in Lines(src, dst, base, w) <==>
      if p[0] in src.entries then Line(tag, base + p) in EntryLines(src.entries[p[0]], Find(dst, p[0]), base + [p[0]], w)
      else p[0] in dst && Line(tag, base + p) in RemovalLines(dst[p[0]], base + [p[0]])
  {
    var l := Line(tag, base + p);
    forall k | k in src.entries && l in EntryLines(src.entries[k], Find(dst, k), base + [k], w)
      ensures k == p[0]
    {
      EntryBelow(src.entries[k], Find(dst, k), base + [k], w);
      BelowChild(EntryLines(src.entries[k], Find(dst, k), base + [k], w), base, k);
    }
    forall k | k in dst && l in RemovalLines(dst[k], base + [k])
      ensures k == p[0]
    {
      RemovalBelow(dst[k], base + [k]);
      BelowChild(RemovalLines(dst[k], base + [k]), base, k);
    }
  }

  /** Longer paths are printed by the run on the subdirectory. */
  lemma BelowEntry(s: Node, d: Option<Node>, path: Path, w: World, rest: Path, tag: char)
    requires rest != []
    ensures Line(tag, path + rest) in EntryLines(s, d, path, w) <==> s.Dir? && Line(tag, path + rest) in Lines(s, Under(d), path, w)
  {
    assert |path + rest| > |path|;
  }

  lemma NothingBelowFile(tag: char, src: map<Name, Node>, dst: map<Name, Node>, k: Name, rest: Path, here: Path, w: World)
    requires k in src && src[k].File? && rest != []
    ensures !Announced(tag, src, dst, [k] + rest, here, w)
  {
    LookupCons(src, k, rest);
    UnderFileCons(src, k, rest);
  }

  lemma OnlyInDestination(tag: char, src: map<Name, Node>, dst: map<Name, Node>, k: Name, rest: Path, base: Path, w: World)
    requires k !in src
    ensures Announced(tag, src, dst, [k] + rest, base + ([k] + rest), w) <==>
      k in dst && Line(tag, base + ([k] + rest)) in RemovalLines(dst[k], base + [k])
  {
    LookupCons(src, k, rest);
    LookupCons(dst, k, rest);
    assert base + ([k] + rest) == (base + [k]) + rest;
    if rest != [] {
      UnderFileCons(src, k, rest);
      NothingUnder(rest);
    }
    if k in dst { RemovalMeaning(dst[k], base + [k], rest, tag); }
  }

  lemma NothingUnder(p: Path)
    ensures Lookup(map[], p) == None && !UnderFile(map[], p)
  {
  }

  /** Nothing else is printed: every line is for a path below the directory and announced. */
  lemma NothingElse(src: Node, dst: map<Name, Node>, base: Path, w: World, l: Line)
    requires src.Dir? && l in Lines(src, dst, base, w)
    ensures |l.path| > |base| && l.path[..|base|] == base
    ensures Announced(l.tag, src.entries, dst, l.path[|base|..], l.path, w)
  {
    LinesBelow(src, dst, base, w);
    var p := l.path[|base|..];
    assert l.path == base + p;
    LineMeaning(src, dst, base, w, p, l.tag);
  }

  // ---------------------------------------------------------------- the outcome, path by path

  /** What a file holds afterwards. */
  function Contents(s: Node, d: Option<Node>): seq<bv8>
    requires s.File? && !IsDir(d)
  {
    if d.Some? && |d.value.content| == |s.content| && d.value.mtime == s.mtime then d.value.content else s.content
  }

  /** What is at a path afterwards. A source file: the source's contents, or the destination's
      if it looked the same; a directory in its place stays; either way the source's time and
      mode. A source directory: a directory of its time and mode. Where the source has nothing
      there is nothing, except that what hides behind a source file stays as it was. */
  ghost predicate Result(s: Option<Node>, d: Option<Node>, hidden: bool, r: Option<Node>) {
    if s.None? then r == (if hidden then d else None)
    else
      && r.Some? && r.value.mtime == s.value.mtime && r.value.mode == s.value.mode
      && (s.value.Dir? ==> r.value.Dir?)
      && (s.value.File? && IsDir(d) ==> r.value.Dir? && r.value.entries == d.value.entries)
      && (s.value.File? && !IsDir(d) ==> r.value.File? && r.value.content == Contents(s.value, d))
  }

  lemma {:induction false} SyncedMeaning(src: Node, dst: map<Name, Node>, p: Path)
    requires src.Dir? && p != []
    ensures Result(Lookup(src.entries, p), Lookup(dst, p), UnderFile(src.entries, p), Lookup(Synced(src, dst), p))
    decreases src
  {
    var k, rest, out := p[0], p[1..], Synced(src, dst);
    assert p == [k] + rest;
    LookupCons(src.entries, k, rest);
    LookupCons(dst, k, rest);
    LookupCons(out, k, rest);
    if rest == [] {
      assert !UnderFile(src.entries, p);
    } else {
      UnderFileCons(src.entries, k, rest);
      if k in src.entries && src.entries[k].Dir? {
        SyncedMeaning(src.entries[k], Under(Find(dst, k)), rest);
      } else {
        NothingUnder(rest);
      }
    }
  }
}
