/** Listing a local source tree and finding listed files again
    (`LocalFsRemote::walk_dir` and `local_path_for`, src/remote.rs). */
module Walk {
  import opened Primitives

  type Name = Bytes
  type Path = seq<Name>

  /** A directory's entries in the order they are visited. */
  datatype Node = Leaf(symlink: bool) | Dir(children: Children)
  datatype Children = Nil | Cons(name: Name, node: Node, rest: Children)

  datatype Listed = Listed(path: Path, node: Node)

  const DOT: byte := 46

  predicate IsDots(name: Name) {
    name == [DOT] || name == [DOT, DOT]
  }

  predicate Has(cs: Children, name: Name) {
    cs.Cons? && (cs.name == name || Has(cs.rest, name))
  }

  /** No directory has two entries of one name. */
  predicate Wellformed(cs: Children) {
    cs.Cons? ==> !Has(cs.rest, cs.name) && (cs.node.Dir? ==> Wellformed(cs.node.children)) && Wellformed(cs.rest)
  }

  // ----- what the file system has, with nothing left out

  /** The entry of a directory with this name. */
  function Child(cs: Children, name: Name): Option<Node> {
    match cs
    case Nil => None
    case Cons(first, node, rest) => if first == name then Some(node) else Child(rest, name)
  }

  /** Where a path leads, one name after the other. */
  function Follow(cs: Children, q: Path): Option<Node>
    decreases |q|
  {
    if q == [] then None
    else
      var child := Child(cs, q[0]);
      if |q| == 1 then child
      else if child.Some? && child.value.Dir? then Follow(child.value.children, q[1..])
      else None
  }

  /** No name on the path is that of a directory itself (46 is the dot) or of its
      parent. */
  predicate Plain(q: Path) {
    forall k :: 0 <= k < |q| ==> q[k] != [46] && q[k] != [46, 46]
  }

  // ----- what the walk looks for

  /** What it has under a relative path that the walk takes. */
  function Find(cs: Children, q: Path): Option<Node>
    decreases cs
  {
    if q == [] || cs.Nil? then None
    else if cs.name == q[0] && !IsDots(cs.name) then
      if |q| == 1 then Some(cs.node)
      else if cs.node.Dir? then Find(cs.node.children, q[1..])
      else None
    else Find(cs.rest, q)
  }

  /** The walk takes exactly the plain paths. */
  lemma {:induction false} FindIsFollow(cs: Children, q: Path)
    requires Wellformed(cs)
    ensures Find(cs, q) == if Plain(q) then Follow(cs, q) else None
    decreases cs
  {
    if q != [] && cs.Cons? {
      if cs.name == q[0] && !IsDots(cs.name) {
        PlainTail(q);
        if |q| > 1 && cs.node.Dir? {
          FindIsFollow(cs.node.children, q[1..]);
        }
      } else {
        FindIsFollow(cs.rest, q);
        if cs.name != q[0] {
          SameBeyond(cs, q);
        }
      }
    }
  }

  lemma PlainTail(q: Path)
    requires q != []
    ensures Plain(q) <==> !IsDots(q[0]) && Plain(q[1..])
  {
    forall k | 1 <= k < |q|
      ensures q[k] == q[1..][k - 1]
    {
    }
    assert Plain(q[1..]) ==> forall k :: 1 <= k < |q| ==> q[k] == q[1..][k - 1] && q[k] != [46] && q[k] != [46, 46];
  }

  /** No entry anywhere below is named "." or "..", as no file system has them. */
  predicate NoDotEntries(cs: Children) {
    match cs
    case Nil => true
    case Cons(name, node, rest) =>
      name != [46] && name != [46, 46] && (node.Dir? ==> NoDotEntries(node.children)) && NoDotEntries(rest)
  }

  lemma {:induction false} ChildIsNamed(cs: Children, name: Name)
    requires NoDotEntries(cs) && Child(cs, name).Some?
    ensures name != [46] && name != [46, 46]
    ensures Child(cs, name).value.Dir? ==> NoDotEntries(Child(cs, name).value.children)
  {
    if cs.name != name {
      ChildIsNamed(cs.rest, name);
    }
  }

  /** So nothing that is there is left out. */
  lemma {:induction false} LeadsSomewhereIsPlain(cs: Children, q: Path)
    requires NoDotEntries(cs) && Follow(cs, q).Some?
    ensures Plain(q)
    decreases |q|
  {
    ChildIsNamed(cs, q[0]);
    if |q| > 1 {
      LeadsSomewhereIsPlain(Child(cs, q[0]).value.children, q[1..]);
      assert forall k :: 1 <= k < |q| ==> q[k] == q[1..][k - 1];
    }
  }

  /** An entry of another name does not matter. */
  lemma SameBeyond(cs: Children, q: Path)
    requires cs.Cons? && q != [] && cs.name != q[0]
    ensures Follow(cs, q) == Follow(cs.rest, q)
  {
    assert Child(cs, q[0]) == Child(cs.rest, q[0]);
  }

  // ----- the order of paths

  predicate NameLe(a: Name, b: Name) {
    a == [] || (b != [] && (a[0] < b[0] || (a[0] == b[0] && NameLe(a[1..], b[1..]))))
  }

  predicate PathLe(a: Path, b: Path) {
    a == [] || (b != [] && (if a[0] == b[0] then PathLe(a[1..], b[1..]) else NameLe(a[0], b[0])))
  }

  lemma {:induction false} NameOrder(a: Name, b: Name)
    ensures NameLe(a, b) || NameLe(b, a)
    ensures NameLe(a, b) && NameLe(b, a) ==> a == b
  {
    if a != [] && b != [] && a[0] == b[0] {
      NameOrder(a[1..], b[1..]);
      assert a == [a[0]] + a[1..] && b == [b[0]] + b[1..];
    }
  }

  /** The first byte that differs decides; a name precedes those it begins. */
  lemma {:induction false} NameLeIff(a: Name, b: Name)
    ensures NameLe(a, b)
            <==> exists k: nat :: k <= |a| && k <= |b| && a[..k] == b[..k] && (k == |a| || (k < |b| && a[k] < b[k]))
  {
    if a != [] && b != [] && a[0] == b[0] {
      NameLeIff(a[1..], b[1..]);
      if k: nat :| k <= |a[1..]| && k <= |b[1..]| && a[1..][..k] == b[1..][..k]
                   && (k == |a[1..]| || (k < |b[1..]| && a[1..][k] < b[1..][k])) {
        assert a[..k + 1] == [a[0]] + a[1..][..k] && b[..k + 1] == [b[0]] + b[1..][..k];
      }
      if k: nat :| k <= |a| && k <= |b| && a[..k] == b[..k] && (k == |a| || (k < |b| && a[k] < b[k])) {
        assert a[1..][..k - 1] == a[..k][1..] && b[1..][..k - 1] == b[..k][1..];
      }
    } else if NameLe(a, b) {
      assert a[..0] == b[..0];
    } else if k: nat :| k <= |a| && k <= |b| && a[..k] == b[..k] && (k == |a| || (k < |b| && a[k] < b[k])) {
      assert k > 0 ==> a[..k][0] == b[..k][0];
    }
  }

  /** The first name that differs decides; a directory precedes what is below it. */
  lemma {:induction false} PathLeIff(a: Path, b: Path)
    ensures PathLe(a, b)
            <==> exists k: nat :: k <= |a| && k <= |b| && a[..k] == b[..k]
                                  && (k == |a| || (k < |b| && a[k] != b[k] && NameLe(a[k], b[k])))
  {
    if a != [] && b != [] && a[0] == b[0] {
      PathLeIff(a[1..], b[1..]);
      if k: nat :| k <= |a[1..]| && k <= |b[1..]| && a[1..][..k] == b[1..][..k]
                   && (k == |a[1..]| || (k < |b[1..]| && a[1..][k] != b[1..][k] && NameLe(a[1..][k], b[1..][k]))) {
        assert a[..k + 1] == [a[0]] + a[1..][..k] && b[..k + 1] == [b[0]] + b[1..][..k];
      }
      if k: nat :| k <= |a| && k <= |b| && a[..k] == b[..k]
                   && (k == |a| || (k < |b| && a[k] != b[k] && NameLe(a[k], b[k]))) {
        assert a[1..][..k - 1] == a[..k][1..] && b[1..][..k - 1] == b[..k][1..];
      }
    } else if PathLe(a, b) {
      assert a[..0] == b[..0];
    } else if k: nat :| k <= |a| && k <= |b| && a[..k] == b[..k]
                        && (k == |a| || (k < |b| && a[k] != b[k] && NameLe(a[k], b[k]))) {
      assert k > 0 ==> a[..k][0] == b[..k][0];
    }
  }

  lemma {:induction false} NameTransitive(a: Name, b: Name, c: Name)
    requires NameLe(a, b) && NameLe(b, c)
    ensures NameLe(a, c)
  {
    if a != [] && a[0] == b[0] && b[0] == c[0] {
      NameTransitive(a[1..], b[1..], c[1..]);
    }
  }

  lemma {:induction false} PathOrder(a: Path, b: Path)
    ensures PathLe(a, b) || PathLe(b, a)
    ensures PathLe(a, b) && PathLe(b, a) ==> a == b
  {
    if a != [] && b != [] {
      NameOrder(a[0], b[0]);
      if a[0] == b[0] {
        PathOrder(a[1..], b[1..]);
        assert a == [a[0]] + a[1..] && b == [b[0]] + b[1..];
      }
    }
  }

  lemma {:induction false} PathTransitive(a: Path, b: Path, c: Path)
    requires PathLe(a, b) && PathLe(b, c)
    ensures PathLe(a, c)
  {
    if a != [] {
      if a[0] == b[0] && b[0] == c[0] {
        PathTransitive(a[1..], b[1..], c[1..]);
      } else {
        if a[0] != b[0] && b[0] != c[0] {
          NameTransitive(a[0], b[0], c[0]);
          if a[0] == c[0] {
            NameOrder(a[0], b[0]);
          }
        }
      }
    }
  }

  predicate Ascending(out: seq<Listed>) {
    forall i, j :: 0 <= i < j < |out| ==> PathLe(out[i].path, out[j].path)
  }

  /** The final sort. */
  method SortByPath(listed: seq<Listed>) returns (out: seq<Listed>)
    ensures Ascending(out) && multiset(out) == multiset(listed)
  {
    out := [];
    for k := 0 to |listed|
      invariant Ascending(out) && multiset(out) == multiset(listed[..k])
    {
      var at: nat := 0;
      while at < |out| && PathLe(out[at].path, listed[k].path)
        invariant at <= |out|
        invariant forall i :: 0 <= i < at ==> PathLe(out[i].path, listed[k].path)
      {
        at := at + 1;
      }
      InsertAscending(out, listed[k], at);
      assert out == out[..at] + out[at..];
      assert listed[..k + 1] == listed[..k] + [listed[k]];
      out := out[..at] + [listed[k]] + out[at..];
    }
    assert listed[..|listed|] == listed;
  }

  lemma InsertAscending(out: seq<Listed>, x: Listed, at: nat)
    requires Ascending(out) && at <= |out|
    requires forall i :: 0 <= i < at ==> PathLe(out[i].path, x.path)
    requires at < |out| ==> !PathLe(out[at].path, x.path)
    ensures Ascending(out[..at] + [x] + out[at..])
  {
    var next := out[..at] + [x] + out[at..];
    forall i, j | 0 <= i < j < |next|
      ensures PathLe(next[i].path, next[j].path)
    {
      if i == at {
        PathOrder(out[at].path, x.path);
        if j - 1 > at {
          PathTransitive(x.path, out[at].path, out[j - 1].path);
        }
      }
    }
  }

  // ----- the listing

  /** Every entry below a directory, each with its relative path. */
  function Below(cs: Children, rel: Path, recursive: bool): seq<Listed>
    decreases cs
  {
    match cs
    case Nil => []
    case Cons(name, node, rest) =>
      (if IsDots(name) then [] else One(name, node, rel, recursive)) + Below(rest, rel, recursive)
  }

  function One(name: Name, node: Node, rel: Path, recursive: bool): seq<Listed>
    decreases node, 0
  {
    [Listed(rel + [name], node)]
    + (if recursive && node.Dir? then Below(node.children, rel + [name], recursive) else [])
  }

  /** The listed path is below rel, at most one level when not recursive, and the
      node is what is found there. */
  predicate FoundBelow(cs: Children, rel: Path, recursive: bool, l: Listed) {
    && |l.path| > |rel| && l.path[..|rel|] == rel && (recursive || |l.path| == |rel| + 1)
    && Find(cs, l.path[|rel|..]) == Some(l.node)
  }

  lemma FindNeedsName(cs: Children, q: Path)
    ensures Find(cs, q).Some? ==> q != [] && Has(cs, q[0])
  {
  }

  /** The listing has exactly what is in the tree. */
  lemma {:induction false} BelowIsFound(cs: Children, rel: Path, recursive: bool, l: Listed)
    requires Wellformed(cs)
    ensures l in Below(cs, rel, recursive) <==> FoundBelow(cs, rel, recursive, l)
    decreases cs
  {
    if cs.Cons? {
      var at := rel + [cs.name];
      BelowIsFound(cs.rest, rel, recursive, l);
      if cs.node.Dir? {
        BelowIsFound(cs.node.children, at, recursive, l);
      }
      if IsDots(cs.name) {
        assert [] + Below(cs.rest, rel, recursive) == Below(cs.rest, rel, recursive);
      } else if |l.path| > |rel| && l.path[..|rel|] == rel && l.path[|rel|] == cs.name {
        var q := l.path[|rel|..];
        FindNeedsName(cs.rest, q);
        assert l.path[..|at|] == at && q[1..] == l.path[|at|..];
        assert |q| == 1 ==> l.path == at;
      } else {
        NotUnder(cs, rel, recursive, l);
      }
    }
  }

  /** An entry under another name is not listed with this one. */
  lemma NotUnder(cs: Children, rel: Path, recursive: bool, l: Listed)
    requires cs.Cons? && Wellformed(cs)
    requires !(|l.path| > |rel| && l.path[..|rel|] == rel && l.path[|rel|] == cs.name)
    requires cs.node.Dir? ==> (l in Below(cs.node.children, rel + [cs.name], recursive)
                               <==> FoundBelow(cs.node.children, rel + [cs.name], recursive, l))
    ensures l !in One(cs.name, cs.node, rel, recursive)
  {
    var at := rel + [cs.name];
    assert |at| == |rel| + 1 && at[..|rel|] == rel && at[|rel|] == cs.name;
  }

  predicate NoRepeats(s: seq<Listed>) {
    forall i, j :: 0 <= i < j < |s| ==> s[i].path != s[j].path
  }

  predicate PathsDiffer(a: seq<Listed>, b: seq<Listed>) {
    forall i, j :: 0 <= i < |a| && 0 <= j < |b| ==> a[i].path != b[j].path
  }

  lemma AppendDistinct(a: seq<Listed>, b: seq<Listed>)
    requires NoRepeats(a) && NoRepeats(b) && PathsDiffer(a, b)
    ensures NoRepeats(a + b)
  {
  }

  /** What is listed of one entry lies under its name. */
  lemma OneIsUnder(cs: Children, rel: Path, recursive: bool, l: Listed)
    requires cs.Cons? && Wellformed(cs) && l in One(cs.name, cs.node, rel, recursive)
    ensures |l.path| > |rel| && l.path[|rel|] == cs.name
    ensures l.path == rel + [cs.name] ==> l == Listed(rel + [cs.name], cs.node)
  {
    var at := rel + [cs.name];
    if l != Listed(at, cs.node) {
      BelowIsFound(cs.node.children, at, recursive, l);
      assert l.path[|rel|] == l.path[..|at|][|rel|];
    }
  }

  /** No path is listed twice. */
  lemma {:induction false} BelowDistinct(cs: Children, rel: Path, recursive: bool)
    requires Wellformed(cs)
    ensures NoRepeats(Below(cs, rel, recursive))
    decreases cs
  {
    if cs.Cons? {
      var at := rel + [cs.name];
      var one, later := One(cs.name, cs.node, rel, recursive), Below(cs.rest, rel, recursive);
      BelowDistinct(cs.rest, rel, recursive);
      if cs.node.Dir? {
        BelowDistinct(cs.node.children, at, recursive);
        var inner := Below(cs.node.children, at, recursive);
        forall j | 0 <= j < |inner|
          ensures inner[j].path != at
        {
          BelowIsFound(cs.node.children, at, recursive, inner[j]);
        }
        AppendDistinct([Listed(at, cs.node)], inner);
      }
      forall i, j | 0 <= i < |one| && 0 <= j < |later|
        ensures one[i].path != later[j].path
      {
        OneIsUnder(cs, rel, recursive, one[i]);
        BelowIsFound(cs.rest, rel, recursive, later[j]);
        FindNeedsName(cs.rest, later[j].path[|rel|..]);
      }
      AppendDistinct(one, later);
      assert [] + later == later;
    }
  }

  lemma SplitTwice(s: seq<Listed>, i: nat, j: nat)
    requires i < j < |s| && s[i] == s[j]
    ensures multiset(s)[s[i]] >= 2
  {
    assert s == s[..j] + [s[j]] + s[j + 1..];
    assert s[..j][i] == s[i];
  }

  lemma {:induction false} CountOnce(s: seq<Listed>, x: Listed)
    requires NoRepeats(s)
    ensures multiset(s)[x] <= 1
  {
    if s != [] {
      CountOnce(s[1..], x);
      assert s == [s[0]] + s[1..];
      assert forall j :: 0 <= j < |s[1..]| ==> s[1..][j].path == s[j + 1].path != s[0].path;
    }
  }

  /** Reordering does not make a path appear twice. */
  lemma OnceEach(out: seq<Listed>, all: seq<Listed>)
    requires multiset(out) == multiset(all) && NoRepeats(all)
    ensures NoRepeats(out) && forall l :: l in out <==> l in all
  {
    forall l
      ensures l in out <==> l in all
    {
      assert l in out <==> l in multiset(out);
    }
    forall i, j | 0 <= i < j < |out|
      ensures out[i].path != out[j].path
    {
      if out[i] == out[j] {
        SplitTwice(out, i, j);
        CountOnce(all, out[i]);
      } else {
        assert out[i] in all && out[j] in all;
      }
    }
  }

  // ----- the walk

  /** A directory still to be read, with its relative path. */
  datatype Pending = Pending(dir: Children, rel: Path)

  function Size(cs: Children): (r: nat)
    ensures r > 0
  {
    match cs
    case Nil => 1
    case Cons(_, node, rest) => 1 + (if node.Dir? then Size(node.children) else 0) + Size(rest)
  }

  function StackSize(stack: seq<Pending>): nat {
    if stack == [] then 0 else StackSize(stack[..|stack| - 1]) + Size(stack[|stack| - 1].dir)
  }

  /** What the directories on the stack will still add. */
  function Owed(stack: seq<Pending>): multiset<Listed> {
    if stack == [] then multiset{}
    else Owed(stack[..|stack| - 1]) + multiset(Below(stack[|stack| - 1].dir, stack[|stack| - 1].rel, true))
  }

  /** In the middle of reading a directory: what is listed, owed by the stack and
      still to be read adds up to `total`. */
  ghost predicate Reading(recursive: bool, out: seq<Listed>, stack: seq<Pending>, rest: Children, rel: Path,
                          total: multiset<Listed>)
  {
    if recursive then multiset(out) + Owed(stack) + multiset(Below(rest, rel, true)) == total
    else multiset(out) + multiset(Below(rest, rel, false)) == total
  }

  lemma PushOwes(stack: seq<Pending>, p: Pending)
    ensures Owed(stack + [p]) == Owed(stack) + multiset(Below(p.dir, p.rel, true))
    ensures StackSize(stack + [p]) == StackSize(stack) + Size(p.dir)
  {
    assert (stack + [p])[..|stack|] == stack;
  }

  /** The first entry of a directory, taken out of the listing. */
  lemma BelowFirst(rest: Children, rel: Path, recursive: bool)
    requires rest.Cons?
    ensures var later := multiset(Below(rest.rest, rel, recursive));
            multiset(Below(rest, rel, recursive))
            == if IsDots(rest.name) then later
               else multiset{Listed(rel + [rest.name], rest.node)}
                    + (if recursive && rest.node.Dir?
                       then multiset(Below(rest.node.children, rel + [rest.name], recursive)) else multiset{})
                    + later
  {
    var first := Listed(rel + [rest.name], rest.node);
    var later := Below(rest.rest, rel, recursive);
    if IsDots(rest.name) {
      assert [] + later == later;
    } else {
      var inner := if recursive && rest.node.Dir? then Below(rest.node.children, rel + [rest.name], recursive) else [];
      assert Below(rest, rel, recursive) == ([first] + inner) + later;
    }
  }

  lemma ReadEntry(recursive: bool, out: seq<Listed>, stack: seq<Pending>, rest: Children, rel: Path,
                  total: multiset<Listed>)
    requires Reading(recursive, out, stack, rest, rel, total) && rest.Cons?
    ensures var path := rel + [rest.name];
            if IsDots(rest.name) then Reading(recursive, out, stack, rest.rest, rel, total)
            else
              var pushed := if recursive && rest.node.Dir? then stack + [Pending(rest.node.children, path)] else stack;
              && Reading(recursive, out + [Listed(path, rest.node)], pushed, rest.rest, rel, total)
              && StackSize(pushed) + Size(rest.rest) < StackSize(stack) + Size(rest)
  {
    var path := rel + [rest.name];
    BelowFirst(rest, rel, recursive);
    assert multiset(out + [Listed(path, rest.node)]) == multiset(out) + multiset{Listed(path, rest.node)};
    if rest.node.Dir? {
      PushOwes(stack, Pending(rest.node.children, path));
    }
  }

  /** Reads one directory: lists its entries, and when recursive pushes its
      subdirectories. */
  method ReadDirectory(cs: Children, rel: Path, recursive: bool, out0: seq<Listed>, stack0: seq<Pending>,
                       ghost total: multiset<Listed>)
    returns (out: seq<Listed>, stack: seq<Pending>)
    requires Reading(recursive, out0, stack0, cs, rel, total)
    ensures Reading(recursive, out, stack, Nil, rel, total)
    ensures StackSize(stack) < StackSize(stack0) + Size(cs)
  {
    out, stack := out0, stack0;
    var rest := cs;
    while rest.Cons?
      invariant Reading(recursive, out, stack, rest, rel, total)
      invariant StackSize(stack) + Size(rest) <= StackSize(stack0) + Size(cs)
      decreases rest
    {
      ReadEntry(recursive, out, stack, rest, rel, total);
      if !IsDots(rest.name) {
        var path := rel + [rest.name];
        if recursive && rest.node.Dir? {
          stack := stack + [Pending(rest.node.children, path)];
        }
        out := out + [Listed(path, rest.node)];
      }
      rest := rest.rest;
    }
  }

  /** The root of a walk: a directory, its name, and whether only its children are
      listed (a source ending in a star). */
  datatype Root = Root(name: Name, children: Children, star: bool)

  /** What a walk is to list: the root itself unless only its children are wanted, and
      below it every node that following a plain path leads to; only the first level
      when not recursive. */
  predicate Lists(root: Root, recursive: bool, l: Listed) {
    var q := if root.star || l.path == [] then l.path else l.path[1..];
    && (!root.star ==> l.path != [] && l.path[0] == root.name)
    && (recursive || |q| <= 1)
    && if q == [] then !root.star && l.node == Dir(root.children)
       else Plain(q) && Follow(root.children, q) == Some(l.node)
  }

  lemma ListsWhatIsFound(root: Root, recursive: bool, l: Listed)
    requires Wellformed(root.children)
    ensures Lists(root, recursive, l)
            <==> || (!root.star && l == Listed([root.name], Dir(root.children)))
                 || FoundBelow(root.children, if root.star then [] else [root.name], recursive, l)
  {
    var rel := if root.star then [] else [root.name];
    if root.star || l.path != [] {
      var q := if root.star then l.path else l.path[1..];
      FindIsFollow(root.children, q);
      if |l.path| > |rel| {
        assert l.path[|rel|..] == q;
      }
      if !root.star {
        assert l.path == [l.path[0]] + q && l.path[..1] == [l.path[0]];
      }
    }
  }

  /** Everything a walk is to list, in tree order. */
  function Everything(root: Root, recursive: bool): seq<Listed> {
    if root.star then Below(root.children, [], recursive)
    else [Listed([root.name], Dir(root.children))] + Below(root.children, [root.name], recursive)
  }

  lemma EverythingOnce(root: Root, recursive: bool)
    requires Wellformed(root.children)
    ensures NoRepeats(Everything(root, recursive))
    ensures forall l :: l in Everything(root, recursive) <==> Lists(root, recursive, l)
  {
    var rel := if root.star then [] else [root.name];
    var inner := Below(root.children, rel, recursive);
    BelowDistinct(root.children, rel, recursive);
    forall l
      ensures l in inner <==> FoundBelow(root.children, rel, recursive, l)
      ensures l in Everything(root, recursive) <==> Lists(root, recursive, l)
    {
      BelowIsFound(root.children, rel, recursive, l);
      ListsWhatIsFound(root, recursive, l);
    }
    if !root.star {
      forall j | 0 <= j < |inner|
        ensures inner[j].path != rel
      {
        assert inner[j] in inner;
      }
      AppendDistinct([Listed(rel, Dir(root.children))], inner);
    }
  }

  /** The recursive walk: directories are taken from the stack until none is left. */
  method WalkAll(root: Root, rel: Path, out0: seq<Listed>, ghost total: multiset<Listed>) returns (out: seq<Listed>)
    requires multiset(out0) + multiset(Below(root.children, rel, true)) == total
    ensures multiset(out) == total
  {
    out := out0;
    var stack := [Pending(root.children, rel)];
    assert stack[..0] == [] && Owed(stack) == multiset(Below(root.children, rel, true));
    while stack != []
      invariant multiset(out) + Owed(stack) == total
      decreases StackSize(stack)
    {
      var top := stack[|stack| - 1];
      stack := stack[..|stack| - 1];
      out, stack := ReadDirectory(top.dir, top.rel, true, out, stack, total);
    }
  }

  /** The walk with an explicit stack: every entry of the tree once, in the order
      of the paths; only the first level when not recursive. */
  method WalkDir(root: Root, recursive: bool) returns (out: seq<Listed>)
    requires Wellformed(root.children)
    ensures forall l :: l in out <==> Lists(root, recursive, l)
    ensures forall i, j :: 0 <= i < j < |out| ==> out[i].path != out[j].path && PathLe(out[i].path, out[j].path)
  {
    var rel := if root.star then [] else [root.name];
    out := if root.star then [] else [Listed(rel, Dir(root.children))];
    ghost var all := Everything(root, recursive);
    if recursive {
      out := WalkAll(root, rel, out, multiset(all));
    } else {
      var stack;
      out, stack := ReadDirectory(root.children, rel, false, out, [], multiset(all));
    }
    out := SortByPath(out);
    EverythingOnce(root, recursive);
    OnceEach(out, all);
  }

  // ----- back to the source

  /** The path in the source tree of a listed relative path, relative to the root:
      the root's own name is stripped unless only its children are listed. */
  function LocalPathFor(root: Root, relative: Path): Path {
    if root.star then relative
    else if relative != [] && relative[0] == root.name then relative[1..]
    else relative
  }

  /** The node at a path below the root, the root itself for the empty path. */
  function Resolve(root: Root, path: Path): Option<Node> {
    if path == [] then Some(Dir(root.children)) else Follow(root.children, path)
  }

  /** Every listed path leads back to the node it was listed for. */
  lemma ListedPathsResolve(root: Root, recursive: bool, l: Listed)
    requires Lists(root, recursive, l)
    ensures Resolve(root, LocalPathFor(root, l.path)) == Some(l.node)
  {
  }
}
