/** Checking where a listed path leads inside the destination
    (`validate_relative_path` and `validate_destination_path`, src/sync.rs). */
module DestinationPath {
  import opened Listing
  import opened Primitives

  type Name = string

  /** Path components as the standard library splits them: a leading "." is kept,
      later ones are dropped. */
  datatype Component = CurDir | Normal(name: Name) | ParentDir | RootDir | Prefix

  predicate Canonical(cs: seq<Component>) {
    forall k :: 0 < k < |cs| ==> cs[k] != CurDir
  }

  datatype FsKind = FsFile | FsDir | FsSymlink

  /** What exists below the destination root, without following links. */
  type Tree = map<seq<Name>, FsKind>

  /** Only directories contain something. */
  ghost predicate TreeShaped(fs: Tree) {
    forall p :: p in fs ==> forall n :: 0 < n < |p| ==> p[..n] in fs && fs[p[..n]] == FsDir
  }

  datatype PathError = Unsafe | ThroughSymlink | NotADirectory

  predicate Downward(c: Component) {
    c.CurDir? || c.Normal?
  }

  /** The names a path goes through. */
  function Names(cs: seq<Component>): seq<Name> {
    if cs == [] then []
    else Names(cs[..|cs| - 1]) + (if cs[|cs| - 1].Normal? then [cs[|cs| - 1].name] else [])
  }

  method ValidateRelativePath(cs: seq<Component>) returns (ok: bool)
    ensures ok <==> forall k :: 0 <= k < |cs| ==> Downward(cs[k])
  {
    for k := 0 to |cs|
      invariant forall j :: 0 <= j < k ==> Downward(cs[j])
    {
      if !Downward(cs[k]) {
        return false;
      }
    }
    ok := true;
  }

  /** What may exist at a path of the destination an entry is written to. */
  predicate Fits(k: FsKind, last: bool, kind: EntryKind) {
    if last then (k == FsSymlink ==> kind == Symlink) && (kind == Dir ==> k == FsDir)
    else k == FsDir
  }

  /** What exists on the way is a directory; what exists at the end is no link unless
      the entry is one, and a directory when the entry is one. */
  ghost predicate Clear(fs: Tree, names: seq<Name>, kind: EntryKind) {
    && (forall n :: 0 < n < |names| && names[..n] in fs ==> fs[names[..n]] == FsDir)
    && (names != [] && names in fs ==>
          (fs[names] == FsSymlink ==> kind == Symlink) && (kind == Dir ==> fs[names] == FsDir))
  }

  lemma ClearFits(fs: Tree, names: seq<Name>, kind: EntryKind)
    ensures Clear(fs, names, kind)
            <==> forall n :: 0 < n <= |names| && names[..n] in fs ==> Fits(fs[names[..n]], n == |names|, kind)
  {
    assert names[..|names|] == names;
    if forall n :: 0 < n <= |names| && names[..n] in fs ==> Fits(fs[names[..n]], n == |names|, kind) {
      assert names != [] && names[..|names|] in fs ==> Fits(fs[names[..|names|]], true, kind);
    }
  }

  lemma {:induction false} NamesOfPrefix(cs: seq<Component>, k: nat)
    requires k <= |cs|
    ensures |Names(cs[..k])| <= |Names(cs)| && Names(cs)[..|Names(cs[..k])|] == Names(cs[..k])
    decreases |cs|
  {
    if k < |cs| {
      NamesOfPrefix(cs[..|cs| - 1], k);
      assert cs[..|cs| - 1][..k] == cs[..k];
    } else {
      assert cs[..k] == cs;
    }
  }

  /** With canonical components every step but the first brings a name. */
  lemma {:induction false} NamesGrow(cs: seq<Component>, k: nat)
    requires k < |cs| && cs[k].Normal?
    ensures Names(cs[..k + 1]) == Names(cs[..k]) + [cs[k].name]
  {
    assert cs[..k + 1][..k] == cs[..k];
  }

  lemma NotLastGrows(cs: seq<Component>, k: nat)
    requires Canonical(cs) && k + 1 < |cs| && cs[k + 1].Normal?
    ensures |Names(cs[..k + 1])| < |Names(cs)|
  {
    NamesGrow(cs, k + 1);
    NamesOfPrefix(cs, k + 2);
  }

  predicate AllDownward(cs: seq<Component>) {
    forall k :: 0 <= k < |cs| ==> Downward(cs[k])
  }

  // ----- what is looked at

  /** How many components are looked at, when `from` already are: up to the first
      that leads to something missing. */
  ghost function LookedAt(fs: Tree, cs: seq<Component>, from: nat): (m: nat)
    requires from <= |cs|
    ensures from <= m <= |cs| && (from < |cs| ==> from < m)
    ensures m < |cs| ==> m > 0 && cs[m - 1].Normal? && Names(cs[..m]) !in fs
    ensures forall k :: from < k < m && cs[k - 1].Normal? ==> Names(cs[..k]) in fs
    decreases |cs| - from
  {
    if from == |cs| then from
    else if cs[from].Normal? && Names(cs[..from + 1]) !in fs then from + 1
    else LookedAt(fs, cs, from + 1)
  }

  /** What exists after k of the first m components fits. */
  ghost predicate ClearTo(fs: Tree, cs: seq<Component>, m: nat, kind: EntryKind)
    requires m <= |cs|
  {
    forall k :: 0 < k <= m && cs[k - 1].Normal? && Names(cs[..k]) in fs ==> Fits(fs[Names(cs[..k])], k == |cs|, kind)
  }

  /** What is looked at only goes down, and fits. */
  ghost predicate Accepted(fs: Tree, cs: seq<Component>, kind: EntryKind) {
    var m := LookedAt(fs, cs, 0);
    AllDownward(cs[..m]) && ClearTo(fs, cs, m, kind)
  }

  /** The walk has passed the first idx components. */
  ghost predicate Passed(fs: Tree, cs: seq<Component>, idx: nat, kind: EntryKind)
    requires idx <= |cs|
  {
    AllDownward(cs[..idx]) && ClearTo(fs, cs, idx, kind) && LookedAt(fs, cs, 0) == LookedAt(fs, cs, idx)
  }

  lemma OneFurther(cs: seq<Component>, idx: nat)
    requires idx < |cs| && AllDownward(cs[..idx])
    ensures AllDownward(cs[..idx + 1]) <==> Downward(cs[idx])
    ensures Names(cs[..idx + 1]) == Names(cs[..idx]) + if cs[idx].Normal? then [cs[idx].name] else []
  {
    assert cs[..idx + 1] == cs[..idx] + [cs[idx]] && cs[..idx + 1][..idx] == cs[..idx];
  }

  /** The component after idx others leads to something that does not fit. */
  ghost predicate Misfit(fs: Tree, cs: seq<Component>, idx: nat, kind: EntryKind)
    requires idx < |cs|
  {
    var next := Names(cs[..idx + 1]);
    cs[idx].Normal? && next in fs && !Fits(fs[next], idx + 1 == |cs|, kind)
  }

  /** A component that goes down, to nothing or to something that fits. */
  lemma PassOn(fs: Tree, cs: seq<Component>, idx: nat, kind: EntryKind)
    requires idx < |cs| && Passed(fs, cs, idx, kind) && Downward(cs[idx]) && !Misfit(fs, cs, idx, kind)
    ensures if cs[idx].Normal? && Names(cs[..idx + 1]) !in fs then Accepted(fs, cs, kind)
            else Passed(fs, cs, idx + 1, kind)
  {
    OneFurther(cs, idx);
  }

  /** A component that does not, or leads to something that does not fit. */
  lemma StopHere(fs: Tree, cs: seq<Component>, idx: nat, kind: EntryKind)
    requires idx < |cs| && LookedAt(fs, cs, 0) == LookedAt(fs, cs, idx)
    requires !Downward(cs[idx]) || Misfit(fs, cs, idx, kind)
    ensures !Accepted(fs, cs, kind)
  {
    var m := LookedAt(fs, cs, 0);
    assert cs[..m][idx] == cs[idx];
  }

  /** Walks down the path and stops at the first thing that does not exist; the
      components behind it are not looked at. */
  method ValidateDestinationPath(fs: Tree, cs: seq<Component>, kind: EntryKind)
    returns (r: Result<seq<Component>, PathError>)
    ensures r.Ok? <==> Accepted(fs, cs, kind)
    ensures r.Ok? ==> r.value == cs
    ensures r == Err(Unsafe) ==> !AllDownward(cs)
  {
    var current: seq<Name> := [];
    for idx := 0 to |cs|
      invariant current == Names(cs[..idx]) && Passed(fs, cs, idx, kind)
    {
      OneFurther(cs, idx);
      if Downward(cs[idx]) && !Misfit(fs, cs, idx, kind) {
        PassOn(fs, cs, idx, kind);
      } else {
        StopHere(fs, cs, idx, kind);
      }
      match cs[idx]
      case CurDir =>
      case Normal(part) =>
        current := current + [part];
        var last := idx + 1 == |cs|;
        if current !in fs {
          return Ok(cs);
        }
        var found := fs[current];
        if found == FsSymlink && !(last && kind == Symlink) {
          return Err(ThroughSymlink);
        }
        if !last && found != FsDir {
          return Err(NotADirectory);
        }
        if last && kind == Dir && found != FsDir {
          return Err(NotADirectory);
        }
      case _ =>
        return Err(Unsafe);
    }
    assert cs[..|cs|] == cs;
    r := Ok(cs);
  }

  // ----- paths that only go down

  /** The component that brings the n-th name. */
  lemma {:induction false} Bringing(cs: seq<Component>, n: nat) returns (k: nat)
    requires 0 < n <= |Names(cs)|
    ensures 0 < k <= |cs| && cs[k - 1].Normal? && Names(cs[..k]) == Names(cs)[..n]
    decreases |cs|
  {
    k := |cs|;
    assert cs[..k] == cs;
    if n < |Names(cs)| || !cs[k - 1].Normal? {
      var front := cs[..k - 1];
      k := Bringing(front, n);
      assert front[..k] == cs[..k];
      NamesOfPrefix(cs, |front|);
    }
  }

  /** It is the last name exactly when it is the last component. */
  lemma LastName(cs: seq<Component>, k: nat)
    requires Canonical(cs) && AllDownward(cs) && 0 < k <= |cs| && cs[k - 1].Normal?
    ensures |Names(cs[..k])| == |Names(cs)| <==> k == |cs|
  {
    assert cs[..|cs|] == cs;
    if k < |cs| {
      NotLastGrows(cs, k - 1);
    }
  }

  /** A path that only goes down is accepted exactly when every existing ancestor
      is a directory and what exists at the end fits the entry. */
  lemma DownwardIffClear(fs: Tree, cs: seq<Component>, kind: EntryKind)
    requires TreeShaped(fs) && Canonical(cs) && AllDownward(cs)
    ensures Accepted(fs, cs, kind) <==> Clear(fs, Names(cs), kind)
  {
    var names, m := Names(cs), LookedAt(fs, cs, 0);
    ClearFits(fs, names, kind);
    if Accepted(fs, cs, kind) {
      forall n | 0 < n <= |names| && names[..n] in fs
        ensures Fits(fs[names[..n]], n == |names|, kind)
      {
        var k := Bringing(cs, n);
        LastName(cs, k);
        if k > m {
          NamesOfPrefix(cs[..k], m);
          assert cs[..k][..m] == cs[..m];
          NameBefore(cs, m, k);
        }
      }
    }
    if Clear(fs, names, kind) {
      forall k | 0 < k <= m && cs[k - 1].Normal? && Names(cs[..k]) in fs
        ensures Fits(fs[Names(cs[..k])], k == |cs|, kind)
      {
        NamesGrow(cs, k - 1);
        NamesOfPrefix(cs, k);
        LastName(cs, k);
      }
    }
  }

  lemma NameBefore(cs: seq<Component>, m: nat, k: nat)
    requires 0 < m < k <= |cs| && cs[m - 1].Normal? && cs[k - 1].Normal?
    ensures 0 < |Names(cs[..m])| < |Names(cs[..k])|
  {
    NamesGrow(cs, m - 1);
    NamesGrow(cs, k - 1);
    NamesOfPrefix(cs[..k - 1], m);
    assert cs[..k - 1][..m] == cs[..m];
  }

  // ----- where a path leads

  /** Where the first k components lead, relative to the root: nowhere known once
      they pass a link or climb over the root. A link at the very end is not
      followed by an entry that replaces it. Missing directories will be created. */
  function Place(fs: Tree, cs: seq<Component>, k: nat, kind: EntryKind): Option<seq<Name>>
    requires k <= |cs|
  {
    if k == 0 then Some([])
    else
      var prev := Place(fs, cs, k - 1, kind);
      if prev.None? then None
      else
        match cs[k - 1]
        case CurDir => prev
        case Normal(name) =>
          var next := prev.value + [name];
          if next in fs && fs[next] == FsSymlink && !(k == |cs| && kind == Symlink) then None else Some(next)
        case ParentDir => if prev.value == [] then None else Some(prev.value[..|prev.value| - 1])
        case _ => None
  }

  lemma {:induction false} ClearStaysBelow(fs: Tree, cs: seq<Component>, k: nat, kind: EntryKind)
    requires Canonical(cs) && AllDownward(cs) && Clear(fs, Names(cs), kind) && k <= |cs|
    ensures Place(fs, cs, k, kind) == Some(Names(cs[..k]))
  {
    ClearFits(fs, Names(cs), kind);
    if k > 0 {
      ClearStaysBelow(fs, cs, k - 1, kind);
      assert Downward(cs[k - 1]);
      OneFurther(cs, k - 1);
      if cs[k - 1].Normal? {
        NamesGrow(cs, k - 1);
        NamesOfPrefix(cs, k);
        LastName(cs, k);
      }
    }
  }

  /** Every component that does not go down costs a name. */
  lemma {:induction false} UpwardLosesNames(fs: Tree, cs: seq<Component>, k: nat, kind: EntryKind)
    requires k <= |cs| && Place(fs, cs, k, kind).Some?
    ensures |Place(fs, cs, k, kind).value| <= |Names(cs[..k])|
    ensures |Place(fs, cs, k, kind).value| == |Names(cs[..k])| ==> AllDownward(cs[..k])
  {
    if k > 0 {
      UpwardLosesNames(fs, cs, k - 1, kind);
      assert cs[..k] == cs[..k - 1] + [cs[k - 1]] && cs[..k][..k - 1] == cs[..k - 1];
    }
  }

  /** An accepted path leads to the place its names say, below the root and past no
      link, exactly when it only goes down: the other check is needed too. */
  lemma StaysBelowIffDownward(fs: Tree, cs: seq<Component>, kind: EntryKind)
    requires TreeShaped(fs) && Canonical(cs) && Accepted(fs, cs, kind)
    ensures Place(fs, cs, |cs|, kind) == Some(Names(cs)) <==> AllDownward(cs)
  {
    assert cs[..|cs|] == cs;
    if AllDownward(cs) {
      DownwardIffClear(fs, cs, kind);
      ClearStaysBelow(fs, cs, |cs|, kind);
    } else if Place(fs, cs, |cs|, kind).Some? {
      UpwardLosesNames(fs, cs, |cs|, kind);
    }
  }

  /** Behind any missing name this check alone lets a path climb over the root. */
  lemma AloneItLetsOut(fs: Tree, name: Name, kind: EntryKind)
    requires [name] !in fs
    ensures var cs := [Normal(name), ParentDir, ParentDir];
            Accepted(fs, cs, kind) && Place(fs, cs, |cs|, kind) == None
  {
    var cs := [Normal(name), ParentDir, ParentDir];
    assert cs[..1] == [Normal(name)] && cs[..1][..0] == [] && Names(cs[..1]) == [name];
    assert LookedAt(fs, cs, 0) == 1;
    assert Place(fs, cs, 1, kind) == Some([name]);
    assert Place(fs, cs, 2, kind) == Some([]);
  }
}
