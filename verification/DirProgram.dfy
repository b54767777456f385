/** The synchroniser itself: recursive procedures that change a directory in place while
    looping over the names of the source and then over its own, in whatever order the
    directory gives them. */
module DirProgram {
  import opened DirSync

  // ---------------------------------------------------------------- lines printed so far

  ghost function CopyPart(src: Node, dst: map<Name, Node>, path: Path, w: World, done: set<Name>): set<Line>
    requires src.Dir?
  {
    set k, l | k in done && k in src.entries && l in CopyLines(src.entries[k], Find(dst, k), path + [k], w) :: l
  }

  ghost function TouchPart(src: Node, dst: map<Name, Node>, path: Path, w: World, done: set<Name>): set<Line>
    requires src.Dir?
  {
    set k, l | k in done && k in src.entries
               && l in TouchLines(src.entries[k], Copied(src.entries[k], Find(dst, k), path + [k], w), path + [k]) :: l
  }

  ghost function RemovePart(src: Node, dst: map<Name, Node>, path: Path, done: set<Name>): set<Line>
    requires src.Dir?
  {
    set k, l | k in done && k in dst && k !in src.entries && l in RemovalLines(dst[k], path + [k]) :: l
  }

  ghost function EmptyingPart(d: map<Name, Node>, path: Path, done: set<Name>): set<Line> {
    set k, l | k in done && k in d && l in RemovalLines(d[k], path + [k]) :: l
  }

  lemma CopyStep(src: Node, dst: map<Name, Node>, path: Path, w: World, done: set<Name>, k: Name)
    requires src.Dir? && k in src.entries
    ensures CopyPart(src, dst, path, w, done + {k})
         == CopyPart(src, dst, path, w, done) + CopyLines(src.entries[k], Find(dst, k), path + [k], w)
  {
  }

  lemma TouchStep(src: Node, dst: map<Name, Node>, path: Path, w: World, done: set<Name>, k: Name)
    requires src.Dir?
    ensures TouchPart(src, dst, path, w, done + {k})
         == TouchPart(src, dst, path, w, done)
            + (if k in src.entries
               then TouchLines(src.entries[k], Copied(src.entries[k], Find(dst, k), path + [k], w), path + [k]) else {})
  {
  }

  lemma RemoveStep(src: Node, dst: map<Name, Node>, path: Path, done: set<Name>, k: Name)
    requires src.Dir?
    ensures RemovePart(src, dst, path, done + {k})
         == RemovePart(src, dst, path, done)
            + (if k in dst && k !in src.entries then RemovalLines(dst[k], path + [k]) else {})
  {
  }

  lemma EmptyingStep(d: map<Name, Node>, path: Path, done: set<Name>, k: Name)
    requires k in d
    ensures EmptyingPart(d, path, done + {k}) == EmptyingPart(d, path, done) + RemovalLines(d[k], path + [k])
  {
  }

  /** All that is printed is printed by the first loop, by touching, or by removing. */
  lemma LinesParts(src: Node, dst: map<Name, Node>, path: Path, w: World)
    requires src.Dir?
    ensures var all := src.entries.Keys + dst.Keys;
      Lines(src, dst, path, w) ==
        CopyPart(src, dst, path, w, src.entries.Keys) + TouchPart(src, dst, path, w, all) + RemovePart(src, dst, path, all)
  {
    var all := src.entries.Keys + dst.Keys;
    forall l
      ensures l in Lines(src, dst, path, w) <==>
        l in CopyPart(src, dst, path, w, src.entries.Keys) || l in TouchPart(src, dst, path, w, all)
        || l in RemovePart(src, dst, path, all)
    {
      LineParts(src, dst, path, w, all, l);
    }
  }

  lemma LineParts(src: Node, dst: map<Name, Node>, path: Path, w: World, all: set<Name>, l: Line)
    requires src.Dir? && all == src.entries.Keys + dst.Keys
    ensures l in Lines(src, dst, path, w) <==>
      l in CopyPart(src, dst, path, w, src.entries.Keys) || l in TouchPart(src, dst, path, w, all)
      || l in RemovePart(src, dst, path, all)
  {
    if k :| k in src.entries && l in CopyLines(src.entries[k], Find(dst, k), path + [k], w) {
      assert l in EntryLines(src.entries[k], Find(dst, k), path + [k], w);
    }
    if k :| k in src.entries && l in TouchLines(src.entries[k], Copied(src.entries[k], Find(dst, k), path + [k], w), path + [k]) {
      assert l in EntryLines(src.entries[k], Find(dst, k), path + [k], w);
    }
    if k :| k in dst && k !in src.entries && l in RemovalLines(dst[k], path + [k]) {
      assert k in all;
    }
  }

  // ---------------------------------------------------------------- the directory so far

  /** Name k is missing, or is a file where the source has a directory. */
  predicate Recreated(src: Node, dst: map<Name, Node>, k: Name)
    requires src.Dir?
  {
    k in src.entries && (k !in dst || (src.entries[k].Dir? && dst[k].File?))
  }

  ghost predicate SomeRecreated(src: Node, dst: map<Name, Node>, done: set<Name>)
    requires src.Dir?
  {
    exists k :: k in done && Recreated(src, dst, k)
  }

  ghost predicate SomeRemoved(src: Node, dst: map<Name, Node>, done: set<Name>)
    requires src.Dir?
  {
    exists k :: k in done && k in dst && k !in src.entries
  }

  lemma FlagStep(src: Node, dst: map<Name, Node>, done: set<Name>, k: Name)
    requires src.Dir?
    ensures SomeRecreated(src, dst, done + {k}) <==> SomeRecreated(src, dst, done) || Recreated(src, dst, k)
    ensures SomeRemoved(src, dst, done + {k}) <==> SomeRemoved(src, dst, done) || (k in dst && k !in src.entries)
  {
  }

  lemma ListingParts(src: Node, dst: map<Name, Node>)
    requires src.Dir?
    ensures ListingChanges(src, dst) <==>
      SomeRecreated(src, dst, src.entries.Keys) || SomeRemoved(src, dst, src.entries.Keys + dst.Keys)
  {
    if k :| Recreated(src, dst, k) {
      assert k in src.entries.Keys;
    }
    if k :| k in dst && k !in src.entries {
      assert k in src.entries.Keys + dst.Keys;
    }
  }

  /** The destination when the names in done have been copied. */
  function CopiedAll(src: Node, dst: map<Name, Node>, path: Path, w: World, done: set<Name>): map<Name, Node>
    requires src.Dir?
  {
    dst + map k | k in done && k in src.entries :: Copied(src.entries[k], Find(dst, k), path + [k], w)
  }

  /** The destination when the second loop is through with the names in done. */
  function TouchedAll(src: Node, dst: map<Name, Node>, mid: map<Name, Node>, done: set<Name>): map<Name, Node>
    requires src.Dir?
  {
    map k | k in mid && (k in done ==> k in src.entries) :: if k in done then Merged(src.entries[k], Find(dst, k)) else mid[k]
  }

  lemma CopiedStep(src: Node, dst: map<Name, Node>, path: Path, w: World, done: set<Name>, k: Name)
    requires src.Dir? && k in src.entries && k !in done
    ensures Find(CopiedAll(src, dst, path, w, done), k) == Find(dst, k)
    ensures CopiedAll(src, dst, path, w, done)[k := Copied(src.entries[k], Find(dst, k), path + [k], w)]
         == CopiedAll(src, dst, path, w, done + {k})
  {
  }

  /** What the second loop does about one name. */
  function AfterTouch(src: Node, cur: map<Name, Node>, k: Name): map<Name, Node>
    requires src.Dir? && k in cur
  {
    if k in src.entries then cur[k := Touched(src.entries[k], cur[k])] else cur - {k}
  }

  function LinesOfTouch(src: Node, cur: map<Name, Node>, k: Name, path: Path): set<Line>
    requires src.Dir? && k in cur
  {
    if k in src.entries then TouchLines(src.entries[k], cur[k], path + [k]) else RemovalLines(cur[k], path + [k])
  }

  lemma TouchedStep(src: Node, dst: map<Name, Node>, mid: map<Name, Node>, done: set<Name>, k: Name, path: Path, w: World)
    requires src.Dir? && k in mid && k !in done && mid == CopiedAll(src, dst, path, w, src.entries.Keys)
    ensures k in TouchedAll(src, dst, mid, done)
    ensures AfterTouch(src, TouchedAll(src, dst, mid, done), k) == TouchedAll(src, dst, mid, done + {k})
  {
    if k in src.entries {
      CopiedTouched(src.entries[k], Find(dst, k), path + [k], w);
    }
  }

  lemma TouchedLines(src: Node, dst: map<Name, Node>, mid: map<Name, Node>, done: set<Name>, k: Name, path: Path, w: World)
    requires src.Dir? && k in mid && k !in done && mid == CopiedAll(src, dst, path, w, src.entries.Keys)
    requires k in TouchedAll(src, dst, mid, done)
    ensures TouchPart(src, dst, path, w, done + {k}) + RemovePart(src, dst, path, done + {k})
         == TouchPart(src, dst, path, w, done) + RemovePart(src, dst, path, done)
            + LinesOfTouch(src, TouchedAll(src, dst, mid, done), k, path)
  {
    TouchStep(src, dst, path, w, done, k);
    RemoveStep(src, dst, path, done, k);
    assert TouchedAll(src, dst, mid, done)[k] == mid[k];
  }

  lemma TouchedEnds(src: Node, dst: map<Name, Node>, mid: map<Name, Node>, path: Path, w: World)
    requires src.Dir? && mid == CopiedAll(src, dst, path, w, src.entries.Keys)
    ensures mid.Keys == src.entries.Keys + dst.Keys
    ensures TouchedAll(src, dst, mid, {}) == mid && TouchedAll(src, dst, mid, mid.Keys) == Synced(src, dst)
  {
  }

  // ---------------------------------------------------------------- the procedures

  class Directory {
    var entries: map<Name, Node>
    var lines: set<Line>

    constructor (entries: map<Name, Node>)
      ensures this.entries == entries && lines == {}
    {
      this.entries, this.lines := entries, {};
    }

    /** Removes everything below, printing each entry. */
    method RemoveAll(ghost d: Node, path: Path)
      requires d.Dir? && d.entries == entries
      modifies this
      ensures entries == map[] && lines == old(lines) + EmptyingLines(d, path)
      decreases d, 0
    {
      ghost var done := {};
      var todo := entries.Keys;
      while todo != {}
        invariant todo !! done && todo + done == d.entries.Keys
        invariant entries == d.entries - done && lines == old(lines) + EmptyingPart(d.entries, path, done)
        decreases todo
      {
        var k :| k in todo;
        var node := entries[k];
        EmptyingStep(d.entries, path, done, k);
        RemoveOne(node, path + [k]);
        entries := entries - {k};
        todo, done := todo - {k}, done + {k};
      }
    }

    /** Removes one entry, a directory with everything below, and prints it. */
    method RemoveOne(node: Node, path: Path)
      modifies `lines
      ensures lines == old(lines) + RemovalLines(node, path)
      decreases node, 1
    {
      if node.Dir? {
        var sub := new Directory(node.entries);
        sub.RemoveAll(node, path);
        lines := lines + sub.lines;
      }
      lines := lines + {Line('-', path)};
    }

    /** One name of the source: copy, recreate, descend, or leave alone. */
    method CopyEntry(k: Name, s: Node, path: Path, w: World) returns (changed: bool)
      modifies this
      ensures entries == old(entries)[k := Copied(s, Find(old(entries), k), path + [k], w)]
      ensures lines == old(lines) + CopyLines(s, Find(old(entries), k), path + [k], w)
      ensures changed == (k !in old(entries) || (s.Dir? && old(entries)[k].File?))
      decreases s, 2
    {
      var here := path + [k];
      changed := false;
      if s.File? {
        if k !in entries {
          lines := lines + {Line('+', here)};
          entries := entries[k := File(s.content, w.clock(here), s.mode)];
          changed := true;
        } else {
          var size := match entries[k] case File(content, _, _) => |content| case Dir(_, _, _) => w.dirSize(here);
          if |s.content| != size || s.mtime != entries[k].mtime {
            lines := lines + {Line('o', here)};
            if entries[k].File? {
              entries := entries[k := File(s.content, w.clock(here), entries[k].mode)];
            }
          }
        }
      } else if k !in entries {
        lines := lines + {Line('+', here)};
        var sub := new Directory(map[]);
        var _ := sub.SyncFrom(s, here, w);
        lines := lines + sub.lines;
        entries := entries[k := Dir(sub.entries, w.clock(here), s.mode)];
        changed := true;
      } else if entries[k].Dir? {
        var sub := new Directory(entries[k].entries);
        var c := sub.SyncFrom(s, here, w);
        lines := lines + sub.lines;
        entries := entries[k := Dir(sub.entries, if c then w.clock(here) else entries[k].mtime, entries[k].mode)];
      } else {
        lines := lines + {Line('-', here)};
        entries := entries - {k};
        var sub := new Directory(map[]);
        var _ := sub.SyncFrom(s, here, w);
        lines := lines + sub.lines;
        entries := entries[k := Dir(sub.entries, w.clock(here), s.mode)];
        changed := true;
      }
    }

    /** One name of the destination: set time and mode, or remove. */
    method TouchEntry(k: Name, src: Node, path: Path)
      requires src.Dir? && k in entries
      modifies this
      ensures entries == AfterTouch(src, old(entries), k)
      ensures lines == old(lines) + LinesOfTouch(src, old(entries), k, path)
    {
      var here := path + [k];
      var node := entries[k];
      if k in src.entries {
        var s := src.entries[k];
        if s.mtime != node.mtime {
          lines := lines + {Line('t', here)};
          node := node.(mtime := s.mtime);
        }
        if s.File? != node.File? || s.mode != node.mode {
          lines := lines + {Line('p', here)};
          node := node.(mode := s.mode);
        }
        entries := entries[k := node];
      } else {
        RemoveOne(node, here);
        entries := entries - {k};
      }
    }

    /** The loop over the source. */
    method CopyAll(src: Node, path: Path, w: World) returns (changed: bool)
      requires src.Dir?
      modifies this
      ensures entries == CopiedAll(src, old(entries), path, w, src.entries.Keys)
      ensures lines == old(lines) + CopyPart(src, old(entries), path, w, src.entries.Keys)
      ensures changed == SomeRecreated(src, old(entries), src.entries.Keys)
      decreases src, 0
    {
      ghost var dst, done := entries, {};
      var todo := src.entries.Keys;
      changed := false;
      while todo != {}
        invariant todo !! done && todo + done == src.entries.Keys
        invariant entries == CopiedAll(src, dst, path, w, done)
        invariant lines == old(lines) + CopyPart(src, dst, path, w, done)
        invariant changed == SomeRecreated(src, dst, done)
        decreases todo
      {
        var k :| k in todo;
        CopiedStep(src, dst, path, w, done, k);
        CopyStep(src, dst, path, w, done, k);
        FlagStep(src, dst, done, k);
        var c := CopyEntry(k, src.entries[k], path, w);
        changed := changed || c;
        todo, done := todo - {k}, done + {k};
      }
    }

    /** The loop over the destination as the first loop left it. */
    method TouchAll(src: Node, path: Path, w: World, ghost dst: map<Name, Node>) returns (changed: bool)
      requires src.Dir? && entries == CopiedAll(src, dst, path, w, src.entries.Keys)
      modifies this
      ensures entries == Synced(src, dst)
      ensures var all := src.entries.Keys + dst.Keys;
        lines == old(lines) + (TouchPart(src, dst, path, w, all) + RemovePart(src, dst, path, all))
      ensures changed == SomeRemoved(src, dst, src.entries.Keys + dst.Keys)
    {
      ghost var mid, done := entries, {};
      TouchedEnds(src, dst, mid, path, w);
      var todo := entries.Keys;
      changed := false;
      while todo != {}
        invariant todo !! done && todo + done == mid.Keys
        invariant entries == TouchedAll(src, dst, mid, done)
        invariant lines == old(lines) + (TouchPart(src, dst, path, w, done) + RemovePart(src, dst, path, done))
        invariant changed == SomeRemoved(src, dst, done)
        decreases todo
      {
        var k :| k in todo;
        TouchedStep(src, dst, mid, done, k, path, w);
        TouchedLines(src, dst, mid, done, k, path, w);
        FlagStep(src, dst, done, k);
        TouchEntry(k, src, path);
        changed := changed || k !in src.entries;
        todo, done := todo - {k}, done + {k};
      }
    }

    /** Makes this directory a copy of the source directory. */
    method SyncFrom(src: Node, path: Path, w: World) returns (changed: bool)
      requires src.Dir?
      modifies this
      ensures entries == Synced(src, old(entries))
      ensures lines == old(lines) + Lines(src, old(entries), path, w)
      ensures changed == ListingChanges(src, old(entries))
      decreases src, 1
    {
      changed := CopyAll(src, path, w);
      var removed := TouchAll(src, path, w, old(entries));
      changed := changed || removed;
      LinesParts(src, old(entries), path, w);
      ListingParts(src, old(entries));
    }
  }
}
