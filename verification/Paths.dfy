/** Slash-separated paths as the runtime and the workspace store handle them: plain strings,
    compared by prefix. */
module Paths {
  import opened Bytes

  type Path = string

  /** `k.startsWith(p + "/")`. */
  predicate Under(p: Path, k: Path) {
    |p| < |k| && k[..|p|] == p && k[|p|] == '/'
  }

  predicate AtOrUnder(p: Path, k: Path) {
    k == p || Under(p, k)
  }

  /** `path.lastIndexOf("/")`. */
  function LastSlash(k: Path): (i: int)
    ensures -1 <= i < |k|
    ensures i >= 0 ==> k[i] == '/'
    ensures forall j :: i < j < |k| ==> k[j] != '/'
  {
    if k == "" then -1
    else if k[|k| - 1] == '/' then |k| - 1
    else LastSlash(k[..|k| - 1])
  }

  predicate Nested(k: Path) {
    LastSlash(k) >= 0
  }

  function Parent(k: Path): Path {
    if Nested(k) then k[..LastSlash(k)] else ""
  }

  /** `replacePathPrefix`. */
  function Rebase(k: Path, p: Path, q: Path): Path
    requires AtOrUnder(p, k)
  {
    if k == p then q else q + k[|p|..]
  }

  /** What a directory rename does to any path. */
  function Moved(k: Path, p: Path, q: Path): Path {
    if AtOrUnder(p, k) then Rebase(k, p, q) else k
  }

  lemma LastSlashIs(k: Path, i: nat)
    requires i < |k| && k[i] == '/' && forall j :: i < j < |k| ==> k[j] != '/'
    ensures LastSlash(k) == i
  {
  }

  lemma UnderTrans(p: Path, q: Path, k: Path)
    requires Under(p, q) && AtOrUnder(q, k)
    ensures Under(p, k)
  {
    if k != q {
      assert k[..|p|] == k[..|q|][..|p|];
      assert k[|p|] == k[..|q|][|p|];
    }
  }

  /** The parent of a path under `p` is `p` or under it. */
  lemma UnderParent(p: Path, k: Path)
    requires Under(p, k)
    ensures Nested(k) && AtOrUnder(p, Parent(k))
  {
    var i := LastSlash(k);
    assert i >= |p|;
    if i > |p| {
      assert k[..i][..|p|] == p;
    }
  }

  lemma ParentUnder(k: Path)
    requires Nested(k)
    ensures Under(Parent(k), k)
  {
  }

  lemma AboveParent(d: Path, k: Path)
    requires Nested(k) && AtOrUnder(d, Parent(k))
    ensures Under(d, k)
  {
    ParentUnder(k);
    if d != Parent(k) {
      UnderTrans(d, Parent(k), k);
    }
  }

  /** The parent of a path that is not moved is not moved either. */
  lemma StayingParent(p: Path, k: Path)
    requires !AtOrUnder(p, k) && (Nested(k) || p != "")
    ensures !AtOrUnder(p, Parent(k))
  {
    if Nested(k) && AtOrUnder(p, Parent(k)) {
      AboveParent(p, k);
    }
  }

  /** Rebasing gives a path at or under the new prefix, and nothing there was rebased twice. */
  lemma RebaseUnder(k: Path, p: Path, q: Path)
    requires AtOrUnder(p, k)
    ensures AtOrUnder(q, Rebase(k, p, q)) && (Under(p, k) ==> Under(q, Rebase(k, p, q)))
  {
    if k != p {
      var r := Rebase(k, p, q);
      assert r[..|q|] == q;
      assert r[|q|] == k[|p|];
    }
  }

  lemma RebaseInjective(k: Path, l: Path, p: Path, q: Path)
    requires AtOrUnder(p, k) && AtOrUnder(p, l) && Rebase(k, p, q) == Rebase(l, p, q)
    ensures k == l
  {
    RebaseUnder(k, p, q);
    RebaseUnder(l, p, q);
    if k != p && l != p {
      assert k[|p|..] == (q + k[|p|..])[|q|..] == (q + l[|p|..])[|q|..] == l[|p|..];
      assert k == k[..|p|] + k[|p|..] && l == l[..|p|] + l[|p|..];
    }
  }

  /** What is in front of a text does not change where its last slash is in it. */
  lemma SlashAfter(front: string, rest: string, j: nat)
    requires j < |rest| && rest[j] == '/' && (forall i :: j < i < |rest| ==> rest[i] != '/')
    ensures LastSlash(front + rest) == |front| + j
    ensures Nested(front + rest) && Parent(front + rest) == front + rest[..j]
  {
    var k, n := front + rest, |front| + j;
    assert forall i :: n < i < |k| ==> k[i] == rest[i - |front|];
    LastSlashIs(k, n);
    assert k[..n] == front + rest[..j];
  }

  lemma RebaseParent(k: Path, p: Path, q: Path)
    requires Under(p, k)
    ensures AtOrUnder(p, Parent(k)) && Nested(Rebase(k, p, q)) && Parent(Rebase(k, p, q)) == Rebase(Parent(k), p, q)
  {
    var rest := k[|p|..];
    var j := LastSlash(rest);
    assert k == p + rest && rest[0] == '/';
    SlashAfter(p, rest, j);
    SlashAfter(q, rest, j);
    RebasedFront(p, q, rest[..j]);
  }

  lemma RebasedFront(p: Path, q: Path, rest: string)
    requires rest == "" || rest[0] == '/'
    ensures AtOrUnder(p, p + rest) && Rebase(p + rest, p, q) == q + rest
  {
    if rest == "" {
      assert p + rest == p && q + rest == q;
    } else {
      assert (p + rest)[..|p|] == p && (p + rest)[|p|..] == rest;
    }
  }

  /** Rebasing back undoes rebasing. */
  lemma RebaseBack(k: Path, p: Path, q: Path)
    requires AtOrUnder(p, k)
    ensures AtOrUnder(q, Rebase(k, p, q)) && Rebase(Rebase(k, p, q), q, p) == k
  {
    RebaseUnder(k, p, q);
    if k != p {
      assert (q + k[|p|..])[|q|..] == k[|p|..];
      assert k == p + k[|p|..];
    }
  }

  /** Where what is at `k` was before `p` was renamed to `q`; `None` if nothing can be there. */
  function Origin(k: Path, p: Path, q: Path): Option<Path> {
    if AtOrUnder(q, k) then Some(Rebase(k, q, p)) else if AtOrUnder(p, k) then None else Some(k)
  }

  lemma OriginMoves(k: Path, p: Path, q: Path)
    requires Origin(k, p, q).Some?
    ensures Moved(Origin(k, p, q).value, p, q) == k
  {
    if AtOrUnder(q, k) {
      RebaseBack(k, q, p);
    }
  }

  lemma MovedOrigin(k: Path, p: Path, q: Path)
    requires !AtOrUnder(q, k)
    ensures Origin(Moved(k, p, q), p, q) == Some(k)
  {
    if AtOrUnder(p, k) {
      RebaseBack(k, p, q);
    }
  }
}
