/** What leaves the workspace: the exported snapshot, when it differs from what was mounted, and
    what a directory rename does to it. */
module NamespaceExport {
  import opened Bytes
  import opened Paths
  import opened Namespace
  import opened NamespaceRuns

  /** The files of the exported snapshot: every file that is not an untouched packaged one. */
  function ExportedFiles(w: Space): map<Path, seq<Byte>> {
    map p | p in w.files && w.files[p] < |w.records| && !w.records[w.files[p]].fallback :: w.records[w.files[p]].bytes
  }

  // ----- The dirty flag -----

  ghost predicate SameExport(w: Space, w': Space) {
    w.dirs == w'.dirs && ExportedFiles(w) == ExportedFiles(w')
  }

  /** A call that leaves the flag down left directories, files and records alone. */
  lemma CleanSame(w: Space, c: Call)
    requires Coherent(w) && !Step(w, c).space.dirty
    ensures !w.dirty && Step(w, c).space == w.(opens := Step(w, c).space.opens)
  {
    match c
    case DoOpen(fd, p, create, excl, trunc, rights) =>
    case DoRename(p, q) =>
    case DoWrite(_, _, _) =>
    case _ =>
  }

  lemma CleanStep(w: Space, c: Call)
    requires Coherent(w) && !Step(w, c).space.dirty
    ensures !w.dirty && SameExport(w, Step(w, c).space)
  {
    CleanSame(w, c);
  }

  /** A run that ends with the flag down changed nothing that is exported, so skipping the import
      loses no update. */
  lemma {:induction false} CleanRun(w: Space, cs: Calls)
    requires Coherent(w) && !Run(w, cs).dirty
    ensures !w.dirty && SameExport(w, Run(w, cs))
    decreases cs
  {
    if cs.Then? {
      StepCoherent(w, cs.call);
      CleanRun(Step(w, cs.call).space, cs.rest);
      CleanStep(w, cs.call);
    }
  }

  // ----- A directory rename is prefix substitution -----

  /** What is at a path: the file there, if any, and whether a directory is. */
  function FileAt(w: Space, k: Path): Option<nat> {
    if k in w.files then Some(w.files[k]) else None
  }

  /** After the rename a path holds the file that was at its origin, and no other path holds any:
      nothing is overwritten and nothing is lost. */
  lemma RenameMovesFiles(w: Space, p: Path, q: Path, k: Path)
    requires Clear(w, p, q)
    ensures FileAt(RenameDirectory(w, p, q), k) ==
            if Origin(k, p, q).Some? then FileAt(w, Origin(k, p, q).value) else None
  {
    var w' := RenameDirectory(w, p, q);
    if k in w'.files {
      var l := MovedFileFrom(w, p, q, k);
      MovedOrigin(l, p, q);
    } else if Origin(k, p, q).Some? && Origin(k, p, q).value in w.files {
      OriginMoves(k, p, q);
      MovedFileAt(w, p, q, Origin(k, p, q).value);
    }
  }

  lemma RenameMovesDirs(w: Space, p: Path, q: Path, k: Path)
    requires Clear(w, p, q)
    ensures k in RenameDirectory(w, p, q).dirs <==>
            Origin(k, p, q).Some? && Origin(k, p, q).value in w.dirs
  {
    var w' := RenameDirectory(w, p, q);
    if k in w'.dirs {
      var d := MovedDirFrom(w, p, q, k);
      MovedOrigin(d, p, q);
    } else if Origin(k, p, q).Some? && Origin(k, p, q).value in w.dirs {
      OriginMoves(k, p, q);
      MovedDirAt(w, p, q, Origin(k, p, q).value);
    }
  }

  /** The contents of the records stay as they are. */
  lemma RenameKeepsContents(w: Space, p: Path, q: Path, id: nat)
    requires Clear(w, p, q) && id < |w.records|
    ensures var r, r' := w.records[id], RenameDirectory(w, p, q).records[id];
            r'.bytes == r.bytes && r'.fallback == r.fallback
  {
  }

  datatype Thing = FileOf(bytes: seq<Byte>, packaged: bool) | Directory | Absent

  function ThingAt(w: Space, k: Path): Thing
    requires RecordsKnown(w)
  {
    if k in w.files then FileOf(w.records[w.files[k]].bytes, w.records[w.files[k]].fallback)
    else if k in w.dirs then Directory
    else Absent
  }

  /** A successful rename of a directory is exactly prefix substitution: afterwards every path
      under the target holds what the corresponding path under the source held, every path under
      the source holds nothing, and every other path is as before. */
  lemma RenameSubstitutes(w: Space, p: Path, q: Path)
    requires Coherent(w) && p !in w.files && p != q && Rename(w, p, q).errno == Success
    ensures Coherent(Rename(w, p, q).space)
    ensures forall k :: ThingAt(Rename(w, p, q).space, k) ==
                        if Origin(k, p, q).Some? then ThingAt(w, Origin(k, p, q).value) else Absent
  {
    RenameCoherent(w, p, q);
    StatusMeansClear(w, p, q);
    var w' := Rename(w, p, q).space;
    forall k ensures ThingAt(w', k) == if Origin(k, p, q).Some? then ThingAt(w, Origin(k, p, q).value) else Absent {
      RenameMovesFiles(w, p, q, k);
      RenameMovesDirs(w, p, q, k);
      if k in w'.files {
        RenameKeepsContents(w, p, q, w'.files[k]);
      }
    }
  }

  /** Substituting the prefix back gives every path that was moved its old text. */
  lemma RenameBack(w: Space, p: Path, q: Path, k: Path)
    requires Clear(w, p, q) && (k in w.files || k in w.dirs) && k != q
    ensures Moved(Moved(k, p, q), q, p) == k
  {
    if AtOrUnder(p, k) {
      RebaseBack(k, p, q);
    }
  }
}
