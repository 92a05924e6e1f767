/** A directory listed end to end: what a guest collects with `fd_readdir` from an unchanged
    directory are its children, each once, with the type that a stat of it gives. */
module Directories {
  import opened Bytes
  import opened Paths
  import opened Namespace
  import opened Listing
  import opened Readdir
  import Names

  /** The listing in the order of `names`; `texts` are the names in UTF-8. */
  function ChildrenOf(names: seq<string>, entries: map<string, bool>, texts: map<string, Text>): Children
    requires forall n :: n in names ==> n in entries && n in texts
  {
    if names == [] then Nil
    else Cons(Child(texts[names[0]], entries[names[0]]), ChildrenOf(names[1..], entries, texts))
  }

  function At(rs: Records, i: nat): Record
    requires i < Size(rs)
  {
    if i == 0 then rs.first else At(rs.rest, i - 1)
  }

  lemma {:induction false} AsManyChildren(names: seq<string>, entries: map<string, bool>, texts: map<string, Text>)
    requires forall n :: n in names ==> n in entries && n in texts
    ensures Count(ChildrenOf(names, entries, texts)) == |names|
    decreases |names|
  {
    if names != [] {
      AsManyChildren(names[1..], entries, texts);
    }
  }

  lemma {:induction false} ChildRecord(names: seq<string>, entries: map<string, bool>, texts: map<string, Text>, cookie: nat, i: nat)
    requires (forall n :: n in names ==> n in entries && n in texts) && i < |names|
    ensures var rs := RecordsOf(ChildrenOf(names, entries, texts), cookie, |names|);
            Size(rs) == |names| && At(rs, i) == RecordOf(Child(texts[names[i]], entries[names[i]]), cookie + i + 1)
    decreases |names|
  {
    var rest := names[1..];
    AsManyChildren(rest, entries, texts);
    SizeOf(ChildrenOf(rest, entries, texts), cookie + 1, |rest|);
    if i > 0 {
      assert rest[i - 1] == names[i];
      ChildRecord(rest, entries, texts, cookie + 1, i - 1);
    }
  }

  /** What is listed below a path has a name without a slash. */
  lemma ListedIsSlashFree(entries: map<string, bool>, w: Space, path: Path, n: string)
    requires IsListing(entries, w, path) && n in entries
    ensures SlashFree(n)
  {
    assert ListsAsDirectory(w, path, n) || ListsAsFile(w, path, n);
    var k :| NameBelow(path, k) == Some(n);
  }

  lemma TypeIsStat(entries: map<string, bool>, w: Space, path: Path, n: string)
    requires RecordsKnown(w) && IsListing(entries, w, path) && SlashFree(n)
    ensures var stat := StatPath(w, ChildPath(path, n));
            (n in entries <==> !stat.Missing?) && (n in entries ==> (entries[n] <==> stat.IsADirectory?))
  {
    ListingAgrees(w, path, n);
    assert (n in entries && entries[n] <==> ListsAsDirectory(w, path, n)) && (n in entries && !entries[n] <==> ListsAsFile(w, path, n));
  }

  /** Resuming over the sorted listing, with a buffer that holds any one entry, gives one record for
      every path directly below the directory that a stat finds, in order, with the type the stat
      gives and the cookie to resume at. */
  lemma ListsChildren(w: Space, path: Path, entries: map<string, bool>, names: seq<string>, texts: map<string, Text>, room: nat)
    requires RecordsKnown(w) && IsListing(entries, w, path) && Sorted(names)
    requires forall n :: n in names <==> n in entries
    requires forall n :: n in names ==> n in texts
    requires Representable(ChildrenOf(names, entries, texts), 0) && AllFit(ChildrenOf(names, entries, texts), room)
    ensures var got := Collect(ChildrenOf(names, entries, texts), 0, room);
            && Size(got) == |names|
            && (forall i :: 0 <= i < |names| ==>
                  At(got, i) == Record(i + 1, texts[names[i]],
                                       if StatPath(w, ChildPath(path, names[i])).IsADirectory? then DIRECTORY else REGULAR_FILE))
            && (forall n :: SlashFree(n) ==> (n in names <==> !StatPath(w, ChildPath(path, n)).Missing?))
  {
    var es := ChildrenOf(names, entries, texts);
    var got := Collect(es, 0, room);
    AsManyChildren(names, entries, texts);
    ListsEveryChild(es, room);
    SizeOf(es, 0, |names|);
    forall i | 0 <= i < |names| ensures
      At(got, i) == Record(i + 1, texts[names[i]],
                           if StatPath(w, ChildPath(path, names[i])).IsADirectory? then DIRECTORY else REGULAR_FILE)
    {
      ChildRecord(names, entries, texts, 0, i);
      ListedIsSlashFree(entries, w, path, names[i]);
      TypeIsStat(entries, w, path, names[i]);
    }
    forall n | SlashFree(n) ensures n in names <==> !StatPath(w, ChildPath(path, n)).Missing? {
      TypeIsStat(entries, w, path, n);
    }
  }

  // ----- Opening what is listed -----

  const MARK: char := '\U{FEFF}'

  predicate StartsWithMark(n: string) {
    n != "" && n[0] == MARK
  }

  /** The text the runtime decodes when a guest passes a listed name on: a byte-order mark at its
      start is dropped. */
  function AsPassed(n: string): string {
    if StartsWithMark(n) then n[1..] else n
  }

  /** Every path is well-formed, as every path that a guest's text resolves to is. */
  predicate WellFormedPaths(w: Space) {
    (forall d :: d in w.dirs ==> Names.WellFormed(d)) && (forall f :: f in w.files ==> Names.WellFormed(f))
  }

  lemma {:induction false} SegmentedAbove(d: Path, k: Path)
    requires Names.Segmented(k) && AtOrUnder(d, k) && d != ""
    ensures Names.Segmented(d)
    decreases |k|
  {
    if d != k {
      UnderParent(d, k);
      SegmentedAbove(d, Parent(k));
    }
  }

  predicate NoSlash(n: string) {
    forall i :: 0 <= i < |n| ==> n[i] != '/'
  }

  lemma NestedLast(path: Path, n: string, k: Path)
    requires NoSlash(n) && k == path + "/" + n
    ensures Names.LastName(k) == n
  {
    assert k[|path|] == '/';
    assert forall j :: |path| < j < |k| ==> k[j] == n[j - |path| - 1];
    LastSlashIs(k, |path|);
    assert k[|path| + 1..] == n;
  }

  lemma FlatLast(n: string)
    requires NoSlash(n)
    ensures Names.LastName(n) == n
  {
    assert LastSlash(n) == -1;
  }

  lemma LastOfChild(path: Path, n: string, k: Path)
    requires NoSlash(n) && k == ChildPath(path, n)
    ensures Names.LastName(k) == n
  {
    if path == "" {
      assert k == n;
      FlatLast(n);
    } else {
      NestedLast(path, n, k);
    }
  }

  /** A listed name is a plain one. */
  lemma ListedIsPlain(entries: map<string, bool>, w: Space, path: Path, n: string)
    requires WellFormedPaths(w) && IsListing(entries, w, path) && n in entries
    ensures Names.PlainName(n)
  {
    ListedIsSlashFree(entries, w, path, n);
    assert ListsAsDirectory(w, path, n) || ListsAsFile(w, path, n);
    var k :| (k in w.dirs || k in w.files) && NameBelow(path, k) == Some(n);
    NameMeansUnder(path, k, n);
    SegmentedAbove(ChildPath(path, n), k);
    LastOfChild(path, n, ChildPath(path, n));
    PlainLast(ChildPath(path, n));
  }

  lemma PlainLast(k: Path)
    requires Names.Segmented(k)
    ensures Names.PlainName(Names.LastName(k))
  {
    if !Nested(k) {
      assert Names.LastName(k) == k;
    }
  }

  lemma NotAbsolute(n: string)
    requires NoSlash(n)
    ensures Names.MountedRelative(n).None? && !Names.StartsWith(n, "/") && Names.Split(n) == [n]
  {
    assert Names.MOUNT[0] == '/' && |Names.MOUNT| > 0;
    assert (Names.MOUNT + "/")[0] == '/' && (Names.MOUNT + "%/")[0] == '/' && (Names.MOUNT + "%")[0] == '/';
    assert n != "" ==> n[0] != '/';
  }

  lemma NormalizesAs(n: string, parts: seq<string>, kept: seq<string>)
    requires Names.Split(n) == parts && Names.Kept(parts) == kept && !Names.StartsWith(n, "/")
    ensures Names.NormalizeWasiPath(n) ==
            if n == "." then Some("")
            else if n == "" || !Names.NoNul(n) || Names.Climbs(parts) || kept == [] then None
            else Some(Names.Join(kept))
  {
  }

  lemma JoinOne(n: string)
    ensures Names.Join([n]) == n
  {
  }

  lemma OneNormalizes(n: string)
    requires NoSlash(n)
    ensures var r := Names.NormalizeWasiPath(n);
            && (Names.PlainName(n) ==> r == Some(n))
            && (r.Some? ==> r.value == "" || (r.value == n && n != ""))
  {
    NotAbsolute(n);
    KeptOne(n);
    JoinOne(n);
    NormalizesAs(n, [n], if Names.Skipped(n) then [] else [n]);
  }

  /** A single name resolves to the child of that name, to the directory itself, or to nothing. */
  lemma NameResolves(path: Path, n: string)
    requires NoSlash(n)
    ensures var r := Names.ResolveMounted(path, n);
            && (Names.PlainName(n) ==> r == Some(ChildPath(path, n)))
            && (r.Some? ==> r.value == path || r.value == ChildPath(path, n))
  {
    NotAbsolute(n);
    OneNormalizes(n);
    assert ChildPath(path, n) == if path == "" then n else path + "/" + n;
  }

  lemma KeptOne(n: string)
    ensures Names.Kept([n]) == (if Names.Skipped(n) then [] else [n]) && (Names.Climbs([n]) <==> n == "..")
  {
    assert [n][..0] == [];
    assert Names.Kept([]) == [];
    assert [n][0] == n;
  }

  /** Passed back to the runtime, a listed name resolves to the listed child, if and only if it does
      not start with a byte-order mark. */
  lemma ListedOpens(entries: map<string, bool>, w: Space, path: Path, n: string)
    requires WellFormedPaths(w) && IsListing(entries, w, path) && n in entries
    ensures Names.ResolveMounted(path, AsPassed(n)) == Some(ChildPath(path, n)) <==> n == "" || n[0] != '\U{FEFF}'
  {
    ListedIsPlain(entries, w, path, n);
    NameResolves(path, AsPassed(n));
    if StartsWithMark(n) {
      ShorterChild(path, n[1..], n);
    }
  }

  lemma ShorterChild(path: Path, a: string, b: string)
    requires |a| < |b|
    ensures ChildPath(path, a) != ChildPath(path, b) && ChildPath(path, b) != path
  {
    assert |ChildPath(path, b)| == |PrefixOf(path)| + |b|;
  }
}
