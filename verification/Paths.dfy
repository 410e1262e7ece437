/** Workspace-relative POSIX paths and the orders the engine sorts them by. */
module Paths {
  type Path = string

  /** The number of separators in a path. */
  function Depth(p: Path): nat {
    if p == "" then 0 else (if p[0] == '/' then 1 else 0) + Depth(p[1..])
  }

  /** `p` lies strictly inside directory `dir`. */
  predicate Under(p: Path, dir: Path) {
    |dir| < |p| && p[..|dir|] == dir && p[|dir|] == '/'
  }

  /** Byte-wise string order. */
  predicate StringLess(a: string, b: string) {
    if b == "" then false
    else if a == "" then true
    else if a[0] != b[0] then a[0] < b[0]
    else StringLess(a[1..], b[1..])
  }

  /** Shallower paths first, then by name. */
  predicate PathBefore(a: Path, b: Path) {
    if Depth(a) != Depth(b) then Depth(a) < Depth(b) else StringLess(a, b)
  }

  /** Deeper paths first. */
  predicate PathAfter(a: Path, b: Path) {
    PathBefore(b, a)
  }

  lemma {:induction false} DepthOfConcat(a: Path, b: Path)
    ensures Depth(a + b) == Depth(a) + Depth(b)
  {
    if a == "" {
      assert a + b == b;
    } else {
      assert (a + b)[1..] == a[1..] + b;
      DepthOfConcat(a[1..], b);
    }
  }

  lemma TopLevel(p: Path)
    requires '/' !in p
    ensures forall d :: !Under(p, d)
  {
    forall d: Path | |d| < |p| ensures !Under(p, d) {
      assert p[|d|] in p;
    }
  }

  /** Every descendant is deeper than its ancestor. */
  lemma UnderIsDeeper(p: Path, dir: Path)
    requires Under(p, dir)
    ensures Depth(dir) < Depth(p)
  {
    assert p == p[..|dir|] + p[|dir|..];
    DepthOfConcat(p[..|dir|], p[|dir|..]);
  }

  /** Every ancestor sorts before its descendants in plain string order. */
  lemma {:induction false} UnderIsStringLess(p: Path, dir: Path)
    requires |dir| < |p| && p[..|dir|] == dir
    ensures StringLess(dir, p)
  {
    if dir != "" {
      assert p[0] == p[..|dir|][0];
      assert p[1..][..|dir| - 1] == p[..|dir|][1..];
      UnderIsStringLess(p[1..], dir[1..]);
    }
  }

  lemma UnderTransitive(a: Path, b: Path, c: Path)
    requires Under(a, b) && Under(b, c)
    ensures Under(a, c)
  {
    assert a[..|c|] == a[..|b|][..|c|];
    assert a[|c|] == a[..|b|][|c|];
  }

  /** The directories above a path. */
  function Ancestors(p: Path): set<Path> {
    set i | 0 <= i < |p| && p[i] == '/' :: p[..i]
  }

  lemma AncestorsAreAbove(p: Path, d: Path)
    ensures d in Ancestors(p) <==> Under(p, d)
  {
    if Under(p, d) {
      assert p[..|d|] == d && p[|d|] == '/';
    }
  }

  /** `p` is the directory itself or lies inside it. */
  predicate Within(p: Path, dir: Path) {
    p == dir || Under(p, dir)
  }

  /** Where a path goes when the subtree `source` is renamed to `target`. */
  function Relocate(source: Path, target: Path, p: Path): Path {
    if Within(p, source) then target + p[|source|..] else p
  }

  // ---- Sorting by a strict total order --------------------------------------

  ghost predicate StrictOrder(lt: (Path, Path) -> bool) {
    && (forall a, b :: lt(a, b) ==> !lt(b, a))
    && (forall a, b, c :: !lt(b, a) && !lt(c, b) ==> !lt(c, a))
  }

  ghost predicate SortedBy(lt: (Path, Path) -> bool, s: seq<Path>) {
    forall i, j :: 0 <= i < j < |s| ==> !lt(s[j], s[i])
  }

  lemma {:induction false} StringLessIsOrder(a: string, b: string, c: string)
    ensures StringLess(a, b) ==> !StringLess(b, a)
    ensures !StringLess(b, a) && !StringLess(c, b) ==> !StringLess(c, a)
    decreases |a|
  {
    if a != "" && b != "" && a[0] == b[0] {
      StringLessIsOrder(a[1..], b[1..], if c != "" then c[1..] else "");
    }
    if a != "" && c != "" && a[0] == c[0] {
      StringLessIsOrder(a[1..], if b != "" then b[1..] else "", c[1..]);
    }
  }

  lemma PathOrder()
    ensures StrictOrder(PathBefore)
  {
    forall a, b, c
      ensures PathBefore(a, b) ==> !PathBefore(b, a)
      ensures !PathBefore(b, a) && !PathBefore(c, b) ==> !PathBefore(c, a)
    {
      StringLessIsOrder(a, b, c);
    }
  }

  lemma PathAfterOrder()
    ensures StrictOrder(PathAfter)
  {
    forall a, b, c
      ensures PathAfter(a, b) ==> !PathAfter(b, a)
      ensures !PathAfter(b, a) && !PathAfter(c, b) ==> !PathAfter(c, a)
    {
      StringLessIsOrder(b, a, c);
      StringLessIsOrder(c, b, a);
    }
  }

  function Insert(lt: (Path, Path) -> bool, x: Path, s: seq<Path>): seq<Path> {
    if s == [] then [x]
    else if lt(s[0], x) then [s[0]] + Insert(lt, x, s[1..])
    else [x] + s
  }

  /** The outcome of sorting `s` with comparator `lt`. */
  function Sort(lt: (Path, Path) -> bool, s: seq<Path>): seq<Path> {
    if s == [] then [] else Insert(lt, s[0], Sort(lt, s[1..]))
  }

  lemma {:induction false} InsertElements(lt: (Path, Path) -> bool, x: Path, s: seq<Path>)
    ensures multiset(Insert(lt, x, s)) == multiset{x} + multiset(s)
  {
    if s != [] && lt(s[0], x) {
      assert s == [s[0]] + s[1..];
      InsertElements(lt, x, s[1..]);
    }
  }

  lemma {:induction false} InsertSorts(lt: (Path, Path) -> bool, x: Path, s: seq<Path>)
    requires StrictOrder(lt) && SortedBy(lt, s)
    ensures SortedBy(lt, Insert(lt, x, s))
  {
    if s != [] {
      if lt(s[0], x) {
        InsertSorts(lt, x, s[1..]);
        InsertElements(lt, x, s[1..]);
        var rest := Insert(lt, x, s[1..]);
        forall j | 0 <= j < |rest|
          ensures !lt(rest[j], s[0])
        {
          assert rest[j] in multiset{x} + multiset(s[1..]);
        }
      } else {
        forall j | 0 <= j < |s|
          ensures !lt(s[j], x)
        {
          assert j > 0 ==> !lt(s[j], s[0]);
        }
      }
    }
  }

  lemma {:induction false} SortSorts(lt: (Path, Path) -> bool, s: seq<Path>)
    requires StrictOrder(lt)
    ensures SortedBy(lt, Sort(lt, s)) && multiset(Sort(lt, s)) == multiset(s)
  {
    if s != [] {
      SortSorts(lt, s[1..]);
      InsertSorts(lt, s[0], Sort(lt, s[1..]));
      InsertElements(lt, s[0], Sort(lt, s[1..]));
      assert s == [s[0]] + s[1..];
    }
  }

  /** No element is repeated. */
  ghost predicate Once(s: seq<Path>) {
    forall i :: 0 <= i < |s| ==> s[i] !in s[..i]
  }

  /** A sequence listing a set once holds exactly its elements, without repetition. */
  lemma {:induction false} ListsOnce(s: seq<Path>, elements: set<Path>)
    requires multiset(s) == multiset(elements)
    ensures forall p :: p in s <==> p in elements
    ensures forall i, j :: 0 <= i < j < |s| ==> s[i] != s[j]
  {
    forall p
      ensures p in s <==> p in elements
    {
      assert p in multiset(s) <==> p in multiset(elements);
    }
    forall i, j | 0 <= i < j < |s|
      ensures s[i] != s[j]
    {
      assert s == s[..j] + s[j..];
      assert multiset(s)[s[i]] == multiset(s[..j])[s[i]] + multiset(s[j..])[s[i]];
      assert s[i] in s[..j];
      assert s[j] in s[j..];
    }
  }

  /** Lists a set in a given order. */
  method SortedPaths(paths: set<Path>, before: (Path, Path) -> bool) returns (order: seq<Path>)
    requires StrictOrder(before)
    ensures multiset(order) == multiset(paths) && SortedBy(before, order)
    ensures forall p :: p in order <==> p in paths
    ensures Once(order)
  {
    order := [];
    var todo := paths;
    while todo != {}
      invariant todo <= paths && multiset(order) == multiset(paths - todo)
      decreases |todo|
    {
      var p :| p in todo;
      todo := todo - {p};
      order := order + [p];
      assert paths - todo == (paths - (todo + {p})) + {p};
    }
    assert paths - todo == paths;
    SortSorts(before, order);
    order := Sort(before, order);
    ListsOnce(order, paths);
    assert Once(order);
  }
}
