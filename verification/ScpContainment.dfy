/** Whatever a sender writes, the sink stays below its target. */
module ScpContainment {
  import opened ScpFormat
  import opened ScpTree
  import opened ScpSink

  /** At or below the root, by names that are no way out of it. */
  predicate Below(root: Path, p: Path) {
    root <= p && forall i :: |root| <= i < |p| ==> EntryName(p[i])
  }

  /** Everything outside the root is as it was; what is new is below the root or leads to it. */
  ghost predicate OnlyBelow(before: FileSystem, root: Path, fs: FileSystem) {
    && (forall p :: p in before && !Below(root, p) ==> p in fs && fs[p] == before[p])
    && (forall p :: p in fs && p !in before ==> Below(root, p) || p <= root)
  }

  ghost predicate Contained(before: FileSystem, root: Path, s: Sink) {
    && OnlyBelow(before, root, s.fs)
    && (forall i :: 0 <= i < |s.dirs| ==> Below(root, s.dirs[i]))
    && (s.phase.Body? ==> Below(root, s.phase.dest))
  }

  lemma {:induction false} MkdirOnlyAdds(fs: FileSystem, path: Path, mode: nat)
    ensures var r := MkdirAll(fs, path, mode);
            r.Some? ==> (forall p :: p in fs ==> p in r.value && r.value[p] == fs[p]) &&
                        (forall p :: p in r.value && p !in fs ==> p <= path)
    decreases |path|
  {
    if !IsDir(fs, path) && path !in fs { MkdirOnlyAdds(fs, path[..|path| - 1], mode); }
  }

  lemma TargetIsBelow(before: FileSystem, root: Path, s: Sink, name: string)
    requires s.Valid() && Contained(before, root, s) && CleanName(name)
    ensures Below(root, s.Target(name))
  {
    assert Below(root, s.Top());
  }

  lemma PrefixOfBelow(root: Path, p: Path, q: Path)
    requires Below(root, p) && q <= p
    ensures Below(root, q) || q <= root
  {
    if |root| <= |q| {
      assert root == p[..|root|] && q == p[..|q|];
      assert root <= q;
    } else {
      assert q == root[..|q|];
    }
  }

  lemma DirIsContained(before: FileSystem, root: Path, s: Sink, h: EntryHeader)
    requires s.Valid() && Contained(before, root, s) && s.phase.Header? && CleanName(h.name)
    ensures Contained(before, root, EnterDir(s, h))
  {
    var dir := s.Target(h.name);
    TargetIsBelow(before, root, s, h.name);
    MkdirOnlyAdds(s.fs, dir, h.mode);
    var made := MkdirAll(s.fs, dir, h.mode);
    if made.Some? {
      forall p | p in made.value && p !in before
        ensures Below(root, p) || p <= root
      {
        if p !in s.fs { PrefixOfBelow(root, dir, p); }
      }
    }
  }

  lemma FileIsContained(before: FileSystem, root: Path, s: Sink, h: FileHeader)
    requires s.Valid() && Contained(before, root, s) && s.phase.Header? && CleanName(h.name)
    ensures Contained(before, root, OpenFile(s, h))
  {
    TargetIsBelow(before, root, s, h.name);
  }

  lemma CommandIsContained(before: FileSystem, root: Path, s: Sink, cmd: Command)
    requires s.Valid() && Contained(before, root, s) && s.phase.Header?
    requires (cmd.Enter? ==> CleanName(cmd.dir.name)) && (cmd.Store? ==> CleanName(cmd.file.name))
    ensures Contained(before, root, OnCommand(s, cmd))
  {
    if cmd.Enter? { DirIsContained(before, root, s, cmd.dir); }
    if cmd.Store? { FileIsContained(before, root, s, cmd.file); }
  }

  lemma BodyIsContained(before: FileSystem, root: Path, s: Sink, data: string)
    requires Contained(before, root, s) && s.phase.Body?
    ensures OnlyBelow(before, root, Append(s.fs, s.phase.dest, data))
  {
  }

  lemma TakeIsContained(before: FileSystem, root: Path, s: Sink, input: string)
    requires s.Valid() && Ready(s, input) && Contained(before, root, s)
    ensures Contained(before, root, Take(s, input))
  {
    if s.phase.Header? {
      CommandIsContained(before, root, s, Parse(input[..Need(s, input) - 1]));
    } else {
      BodyIsContained(before, root, s, input[..Need(s, input)][..s.phase.size]);
    }
  }

  lemma {:induction false} ReceiveIsContained(before: FileSystem, root: Path, s: Sink, input: string)
    requires s.Valid() && Contained(before, root, s)
    ensures Contained(before, root, Receive(s, input))
    decreases |input|
  {
    if Ready(s, input) {
      TakeIsContained(before, root, s, input);
      ReceiveIsContained(before, root, Take(s, input), input[Need(s, input)..]);
    } else if s.phase.Body? {
      BodyIsContained(before, root, s, input);
    }
  }

  /**
    Whatever bytes arrive, everything outside the target stays as it was, and every new path is reached from
    the target by clean names or leads to the target.
   */
  lemma SinkStaysBelowTarget(fs: FileSystem, root: Path, input: string)
    ensures OnlyBelow(fs, root, Receive(Start(fs, root), input).fs)
  {
    ReceiveIsContained(fs, root, Start(fs, root), input);
  }
}
