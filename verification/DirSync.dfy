/** One-way directory synchronisation: what a destination directory looks like afterwards,
    what the program prints, when the two sides agree, and what a second run does. */
module DirSync {

  type Name = string

  type Path = seq<Name>

  /** Modification times are whole seconds; mode holds the permission bits. */
  datatype Node =
    | File(content: seq<bv8>, mtime: int, mode: nat)
    | Dir(entries: map<Name, Node>, mtime: int, mode: nat)

  datatype Option<T> = None | Some(value: T)

  function Find(entries: map<Name, Node>, name: Name): Option<Node> {
    if name in entries then Some(entries[name]) else None
  }

  /** What the run cannot choose: when something is written, and the size of a directory. */
  datatype World = World(clock: Path -> int, dirSize: Path -> nat)

  /** A printed line: '+', 'o', '-', 't' or 'p', and a path. */
  datatype Line = Line(tag: char, path: Path)

  // ---------------------------------------------------------------- the outcome

  /** The decision to copy looks at size and modification time only. */
  predicate Differs(s: Node, d: Node)
    requires s.File? && d.File?
  {
    |s.content| != |d.content| || s.mtime != d.mtime
  }

  /** The destination directory after the run holds the names of the source directory. */
  function Synced(src: Node, dst: map<Name, Node>): map<Name, Node>
    requires src.Dir?
    decreases src, 0
  {
    map k | k in src.entries :: Merged(src.entries[k], Find(dst, k))
  }

  /** A file does not replace a directory, but the directory gets the file's time and mode. */
  function Merged(s: Node, d: Option<Node>): Node
    decreases s, 1
  {
    match s
    case File(content, mtime, mode) =>
      if d.None? then s
      else if d.value.Dir? then Dir(d.value.entries, mtime, mode)
      else File(if Differs(s, d.value) then content else d.value.content, mtime, mode)
    case Dir(_, mtime, mode) =>
      Dir(Synced(s, if d.Some? && d.value.Dir? then d.value.entries else map[]), mtime, mode)
  }

  // ---------------------------------------------------------------- when the two sides agree

  /** No file of the source faces a directory. */
  predicate NoClash(src: Node, dst: map<Name, Node>)
    requires src.Dir?
    decreases src, 0
  {
    forall k :: k in src.entries ==> Compatible(src.entries[k], Find(dst, k))
  }

  predicate Compatible(s: Node, d: Option<Node>)
    decreases s, 1
  {
    d.Some? && d.value.Dir? ==> s.Dir? && NoClash(s, d.value.entries)
  }

  /** Files of equal size and time on both sides have equal contents. */
  predicate NoStale(src: Node, dst: map<Name, Node>)
    requires src.Dir?
    decreases src, 0
  {
    forall k :: k in src.entries ==> Fresh(src.entries[k], Find(dst, k))
  }

  predicate Fresh(s: Node, d: Option<Node>)
    decreases s, 1
  {
    d.Some? ==>
      && (s.File? && d.value.File? && !Differs(s, d.value) ==> s.content == d.value.content)
      && (s.Dir? && d.value.Dir? ==> NoStale(s, d.value.entries))
  }

  /** The destination is a copy of the source, names, kinds, contents, times and modes, if
      and only if no file faced a directory and equal size and time meant equal contents. */
  lemma {:induction false} MirrorIff(src: Node, dst: map<Name, Node>)
    requires src.Dir?
    ensures Synced(src, dst) == src.entries <==> NoClash(src, dst) && NoStale(src, dst)
    decreases src, 0
  {
    forall k | k in src.entries
      ensures Merged(src.entries[k], Find(dst, k)) == src.entries[k]
        <==> Compatible(src.entries[k], Find(dst, k)) && Fresh(src.entries[k], Find(dst, k))
    {
      MergedIff(src.entries[k], Find(dst, k));
    }
    if Synced(src, dst) == src.entries {
      forall k | k in src.entries
        ensures Compatible(src.entries[k], Find(dst, k)) && Fresh(src.entries[k], Find(dst, k))
      {
        assert Synced(src, dst)[k] == src.entries[k];
      }
    }
  }

  lemma {:induction false} MergedIff(s: Node, d: Option<Node>)
    ensures Merged(s, d) == s <==> Compatible(s, d) && Fresh(s, d)
    decreases s, 1
  {
    if s.Dir? {
      var under := if d.Some? && d.value.Dir? then d.value.entries else map[];
      MirrorIff(s, under);
      if under == map[] { NothingToClash(s); }
    }
  }

  lemma {:induction false} NothingToClash(src: Node)
    requires src.Dir?
    ensures NoClash(src, map[]) && NoStale(src, map[])
  {
  }

  /** Two destinations that stay different from the source: a directory where the source has
      a file, and a file of the same size and time but other contents. */
  lemma MirrorFails()
    ensures var src := Dir(map["a" := File([1], 7, 420)], 0, 493);
      && Synced(src, map["a" := Dir(map[], 7, 420)]) != src.entries
      && Synced(src, map["a" := File([2], 7, 420)]) != src.entries
  {
    var src := Dir(map["a" := File([1], 7, 420)], 0, 493);
    assert Synced(src, map["a" := Dir(map[], 7, 420)])["a"].Dir?;
    assert Synced(src, map["a" := File([2], 7, 420)])["a"].content == [2];
  }

  /** Into an empty directory the copy is always exact. */
  lemma FreshCopy(src: Node)
    requires src.Dir?
    ensures Synced(src, map[]) == src.entries
  {
    NothingToClash(src);
    MirrorIff(src, map[]);
  }

  // ---------------------------------------------------------------- a second run

  /** A second run changes nothing, whatever the first one met. */
  lemma {:induction false} Idempotent(src: Node, dst: map<Name, Node>)
    requires src.Dir?
    ensures Synced(src, Synced(src, dst)) == Synced(src, dst)
    decreases src, 0
  {
    var once := Synced(src, dst);
    forall k | k in src.entries
      ensures Synced(src, once)[k] == once[k]
    {
      MergedTwice(src.entries[k], Find(dst, k));
      assert Find(once, k) == Some(once[k]);
    }
  }

  lemma {:induction false} MergedTwice(s: Node, d: Option<Node>)
    ensures Merged(s, Some(Merged(s, d))) == Merged(s, d)
    decreases s, 1
  {
    if s.Dir? {
      Idempotent(s, if d.Some? && d.value.Dir? then d.value.entries else map[]);
    }
  }

  // ---------------------------------------------------------------- what is printed

  /** The run creates or removes an entry of the destination directory itself. */
  predicate ListingChanges(src: Node, dst: map<Name, Node>)
    requires src.Dir?
  {
    || (exists k :: k in src.entries && (k !in dst || (src.entries[k].Dir? && dst[k].File?)))
    || (exists k :: k in dst && k !in src.entries)
  }

  /** An entry after the first loop: contents in place, times and modes not yet. */
  function Copied(s: Node, d: Option<Node>, path: Path, w: World): Node {
    match s
    case File(content, _, mode) =>
      if d.None? then File(content, w.clock(path), mode)
      else if d.value.Dir? || !Differs(s, d.value) then d.value
      else File(content, w.clock(path), d.value.mode)
    case Dir(_, _, mode) =>
      if d.Some? && d.value.Dir?
      then Dir(Synced(s, d.value.entries), if ListingChanges(s, d.value.entries) then w.clock(path) else d.value.mtime, d.value.mode)
      else Dir(Synced(s, map[]), w.clock(path), mode)
  }

  /** The second loop on an entry that the source has. */
  function Touched(s: Node, mid: Node): Node {
    match mid
    case File(content, _, _) => File(content, s.mtime, s.mode)
    case Dir(entries, _, _) => Dir(entries, s.mtime, s.mode)
  }

  lemma CopiedTouched(s: Node, d: Option<Node>, path: Path, w: World)
    ensures Touched(s, Copied(s, d, path, w)) == Merged(s, d)
  {
  }

  function TouchLines(s: Node, mid: Node, path: Path): set<Line> {
    (if s.mtime != mid.mtime then {Line('t', path)} else {}) +
    (if s.File? != mid.File? || s.mode != mid.mode then {Line('p', path)} else {})
  }

  function CopyLines(s: Node, d: Option<Node>, path: Path, w: World): set<Line>
    decreases s, 1
  {
    if s.File? then
      (if d.None? then {Line('+', path)}
       else if (if d.value.File? then Differs(s, d.value) else |s.content| != w.dirSize(path) || s.mtime != d.value.mtime)
       then {Line('o', path)} else {})
    else if d.None? then {Line('+', path)} + Lines(s, map[], path, w)
    else if d.value.Dir? then Lines(s, d.value.entries, path, w)
    else {Line('-', path)} + Lines(s, map[], path, w)
  }

  function EntryLines(s: Node, d: Option<Node>, path: Path, w: World): set<Line>
    decreases s, 2
  {
    CopyLines(s, d, path, w) + TouchLines(s, Copied(s, d, path, w), path)
  }

  /** Removing a tree prints every entry in it. */
  function RemovalLines(d: Node, path: Path): set<Line>
    decreases d, 1
  {
    {Line('-', path)} + (if d.Dir? then EmptyingLines(d, path) else {})
  }

  function EmptyingLines(d: Node, path: Path): set<Line>
    requires d.Dir?
    decreases d, 0
  {
    set k, l | k in d.entries && l in RemovalLines(d.entries[k], path + [k]) :: l
  }

  function Lines(src: Node, dst: map<Name, Node>, path: Path, w: World): set<Line>
    requires src.Dir?
    decreases src, 0
  {
    (set k, l | k in src.entries && l in EntryLines(src.entries[k], Find(dst, k), path + [k], w) :: l) +
    (set k, l | k in dst && k !in src.entries && l in RemovalLines(dst[k], path + [k]) :: l)
  }

  /** After a run, the next one prints nothing, if and only if no file faced a directory. */
  lemma {:induction false} SilentIff(src: Node, dst: map<Name, Node>, path: Path, w: World)
    requires src.Dir?
    ensures Lines(src, Synced(src, dst), path, w) == {} <==> NoClash(src, dst)
    decreases src, 0
  {
    var once := Synced(src, dst);
    forall k | k in src.entries
      ensures EntryLines(src.entries[k], Find(once, k), path + [k], w) == {} <==> Compatible(src.entries[k], Find(dst, k))
    {
      assert Find(once, k) == Some(Merged(src.entries[k], Find(dst, k)));
      EntrySilentIff(src.entries[k], Find(dst, k), path + [k], w);
    }
    if !NoClash(src, dst) {
      var k :| k in src.entries && !Compatible(src.entries[k], Find(dst, k));
      var l :| l in EntryLines(src.entries[k], Find(once, k), path + [k], w);
      assert l in Lines(src, once, path, w);
    }
  }

  lemma {:induction false} EntrySilentIff(s: Node, d: Option<Node>, path: Path, w: World)
    ensures EntryLines(s, Some(Merged(s, d)), path, w) == {} <==> Compatible(s, d)
    decreases s, 1
  {
    var m := Merged(s, d);
    if s.File? {
      if m.Dir? {
        assert Line('p', path) in EntryLines(s, Some(m), path, w);
      }
    } else {
      var under := if d.Some? && d.value.Dir? then d.value.entries else map[];
      SilentIff(s, under, path, w);
      Idempotent(s, under);
      if under == map[] { NothingToClash(s); }
      assert !ListingChanges(s, m.entries);
      assert Copied(s, Some(m), path, w) == m;
    }
  }
}
