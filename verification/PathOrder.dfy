/** The order in which a BTreeSet of paths is walked: component by component, each
    component character by character. */
module PathOrder {
  import opened Messages

  predicate Lexicographic<T(==)>(less: (T, T) -> bool, a: seq<T>, b: seq<T>) {
    b != [] && (a == [] || less(a[0], b[0]) || (a[0] == b[0] && Lexicographic(less, a[1..], b[1..])))
  }

  ghost predicate StrictTotal<T(!new)>(less: (T, T) -> bool) {
    && (forall x :: !less(x, x))
    && (forall x, y, z :: less(x, y) && less(y, z) ==> less(x, z))
    && (forall x, y :: x != y ==> less(x, y) || less(y, x))
  }

  lemma {:induction false} LexicographicIrreflexive<T(!new)>(less: (T, T) -> bool, a: seq<T>)
    requires StrictTotal(less)
    ensures !Lexicographic(less, a, a)
  {
    if a != [] { LexicographicIrreflexive(less, a[1..]); }
  }

  lemma {:induction false} LexicographicTransitive<T(!new)>(less: (T, T) -> bool, a: seq<T>, b: seq<T>, c: seq<T>)
    requires StrictTotal(less) && Lexicographic(less, a, b) && Lexicographic(less, b, c)
    ensures Lexicographic(less, a, c)
  {
    if a != [] && a[0] == b[0] == c[0] && Lexicographic(less, a[1..], b[1..]) && Lexicographic(less, b[1..], c[1..]) {
      LexicographicTransitive(less, a[1..], b[1..], c[1..]);
    }
  }

  lemma {:induction false} LexicographicTotal<T(!new)>(less: (T, T) -> bool, a: seq<T>, b: seq<T>)
    requires StrictTotal(less) && a != b
    ensures Lexicographic(less, a, b) || Lexicographic(less, b, a)
  {
    if a != [] && b != [] && a[0] == b[0] {
      assert a == [a[0]] + a[1..] && b == [b[0]] + b[1..];
      LexicographicTotal(less, a[1..], b[1..]);
    }
  }

  lemma LexicographicStrictTotal<T(!new)>(less: (T, T) -> bool)
    requires StrictTotal(less)
    ensures StrictTotal((a: seq<T>, b: seq<T>) => Lexicographic(less, a, b))
  {
    forall a: seq<T> ensures !Lexicographic(less, a, a) { LexicographicIrreflexive(less, a); }
    forall a: seq<T>, b: seq<T>, c: seq<T> | Lexicographic(less, a, b) && Lexicographic(less, b, c)
      ensures Lexicographic(less, a, c)
    {
      LexicographicTransitive(less, a, b, c);
    }
    forall a: seq<T>, b: seq<T> | a != b ensures Lexicographic(less, a, b) || Lexicographic(less, b, a) {
      LexicographicTotal(less, a, b);
    }
  }

  /** One is a proper prefix of the other, or less at the first place where they differ. */
  lemma {:induction false} LexicographicIs<T>(less: (T, T) -> bool, a: seq<T>, b: seq<T>)
    ensures Lexicographic(less, a, b) <==>
      a < b || exists i :: 0 <= i < |a| && i < |b| && a[..i] == b[..i] && less(a[i], b[i])
  {
    if a != [] && b != [] {
      LexicographicIs(less, a[1..], b[1..]);
      if a[0] == b[0] {
        assert a == [a[0]] + a[1..] && b == [a[0]] + b[1..];
        if i :| 0 <= i < |a[1..]| && i < |b[1..]| && a[1..][..i] == b[1..][..i] && less(a[1..][i], b[1..][i]) {
          assert a[..i + 1] == [a[0]] + a[1..][..i] && b[..i + 1] == [a[0]] + b[1..][..i];
          assert a[..i + 1] == b[..i + 1] && less(a[i + 1], b[i + 1]);
        }
        if i :| 0 <= i < |a| && i < |b| && a[..i] == b[..i] && less(a[i], b[i]) {
          if i > 0 {
            assert a[1..][..i - 1] == a[..i][1..] && b[1..][..i - 1] == b[..i][1..];
            assert less(a[1..][i - 1], b[1..][i - 1]);
          }
        }
      } else {
        forall i | 0 < i < |a| && i < |b| ensures a[..i] != b[..i] {
          assert a[..i][0] == a[0] && b[..i][0] == b[0];
        }
        assert a[..0] == b[..0];
      }
    }
  }

  predicate CharLess(c: char, d: char) { c < d }

  predicate StringLess(s: string, t: string) { Lexicographic(CharLess, s, t) }

  predicate PathLess(p: Path, q: Path) { Lexicographic(StringLess, p, q) }

  /** The order of paths in plain terms: a proper prefix comes first; otherwise the first
      component that differs decides, where again a proper prefix or the smaller character
      comes first. */
  lemma PathLessIs(p: Path, q: Path)
    ensures PathLess(p, q) <==>
      p < q
      || (exists i ::
            0 <= i < |p| && i < |q| && p[..i] == q[..i]
            && (p[i] < q[i] || exists j :: 0 <= j < |p[i]| && j < |q[i]| && p[i][..j] == q[i][..j] && p[i][j] < q[i][j]))
  {
    LexicographicIs(StringLess, p, q);
    forall i | 0 <= i < |p| && i < |q|
      ensures StringLess(p[i], q[i]) <==>
        p[i] < q[i] || exists j :: 0 <= j < |p[i]| && j < |q[i]| && p[i][..j] == q[i][..j] && p[i][j] < q[i][j]
    {
      LexicographicIs(CharLess, p[i], q[i]);
    }
  }

  lemma PathLessStrictTotal()
    ensures StrictTotal(PathLess)
  {
    LexicographicStrictTotal(CharLess);
    assert StrictTotal(StringLess) by {
      var f := (a: string, b: string) => Lexicographic(CharLess, a, b);
      assert forall a: string, b: string :: StringLess(a, b) == f(a, b);
    }
    LexicographicStrictTotal(StringLess);
    var g := (a: Path, b: Path) => Lexicographic(StringLess, a, b);
    assert forall a: Path, b: Path :: PathLess(a, b) == g(a, b);
  }

  ghost predicate Ascending(s: seq<Path>) {
    forall i, j :: 0 <= i < j < |s| ==> PathLess(s[i], s[j])
  }

  function Insert(s: seq<Path>, p: Path): (r: seq<Path>)
    ensures forall q :: q in r <==> q == p || q in s
  {
    if s == [] then [p]
    else if p == s[0] then s
    else if PathLess(p, s[0]) then [p] + s
    else
      var r := [s[0]] + Insert(s[1..], p);
      assert s == [s[0]] + s[1..];
      r
  }

  lemma {:induction false} InsertAscending(s: seq<Path>, p: Path)
    requires Ascending(s)
    ensures Ascending(Insert(s, p))
  {
    PathLessStrictTotal();
    var r := Insert(s, p);
    if s != [] && p != s[0] && !PathLess(p, s[0]) {
      InsertAscending(s[1..], p);
      forall i, j | 0 <= i < j < |r| ensures PathLess(r[i], r[j]) {
        if i == 0 {
          assert r[j] in r[1..];
          if r[j] != p {
            var k :| 0 <= k < |s[1..]| && s[1..][k] == r[j];
            assert PathLess(s[0], s[k + 1]);
          }
        } else {
          assert r[i] == r[1..][i - 1] && r[j] == r[1..][j - 1];
        }
      }
    } else if s != [] && PathLess(p, s[0]) {
      forall i, j | 0 <= i < j < |r| ensures PathLess(r[i], r[j]) {
        if i == 0 && j > 1 { assert PathLess(s[0], s[j - 1]); }
      }
    }
  }

  /** The paths of a set in the order a BTreeSet holds them. */
  method Sorted(paths: set<Path>) returns (s: seq<Path>)
    ensures Ascending(s)
    ensures forall p :: p in s <==> p in paths
  {
    s := [];
    var todo := paths;
    while todo != {}
      invariant todo <= paths && Ascending(s)
      invariant forall p :: p in s <==> p in paths - todo
    {
      var p :| p in todo;
      InsertAscending(s, p);
      s := Insert(s, p);
      todo := todo - {p};
    }
  }

  lemma {:induction false} SortedExists(paths: set<Path>) returns (s: seq<Path>)
    ensures Ascending(s)
    ensures forall p :: p in s <==> p in paths
  {
    s := [];
    if paths != {} {
      var p :| p in paths;
      s := SortedExists(paths - {p});
      InsertAscending(s, p);
      s := Insert(s, p);
    }
  }

  /** An ascending sequence is determined by its elements. */
  lemma {:induction false} AscendingUnique(s: seq<Path>, t: seq<Path>)
    requires Ascending(s) && Ascending(t) && forall p :: p in s <==> p in t
    ensures s == t
  {
    PathLessStrictTotal();
    HasMember(t);
    if s != [] {
      assert s[0] in s;
      assert t != [];
      assert t[0] in t;
      FirstIsLeast(s, t[0]);
      FirstIsLeast(t, s[0]);
      forall p ensures p in s[1..] <==> p in t[1..] {
        RestOfAscending(s, p);
        RestOfAscending(t, p);
      }
      AscendingUnique(s[1..], t[1..]);
    }
  }

  lemma HasMember(s: seq<Path>)
    ensures s != [] ==> exists p :: p in s
  {
    if s != [] { assert s[0] in s; }
  }

  lemma FirstIsLeast(s: seq<Path>, p: Path)
    requires Ascending(s) && p in s
    ensures p == s[0] || PathLess(s[0], p)
  {
    var i :| 0 <= i < |s| && s[i] == p;
  }

  lemma RestOfAscending(s: seq<Path>, p: Path)
    requires Ascending(s) && s != []
    ensures p in s[1..] <==> p in s && p != s[0]
  {
    PathLessStrictTotal();
    if p in s[1..] {
      var i :| 0 <= i < |s[1..]| && s[1..][i] == p;
      assert PathLess(s[0], s[i + 1]);
    }
  }
}
