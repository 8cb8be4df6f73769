/**
 * The few Python string operations the downloader relies on, written out
 * with their exact semantics: truthiness of an optional string, `startswith`,
 * substring `in`, `str.split(sep)` for a one-character separator and the
 * POSIX `os.path.basename` / `os.path.join`.
 */
module PyStr {
  import opened Wrappers

  /** Python truthiness of a value that is a string or `None`: `None` and `""` are false. */
  predicate Truthy(s: Option<string>) {
    s.Some? && s.value != ""
  }

  /** `s.startswith(p)`. */
  predicate StartsWith(s: string, p: string) {
    |p| <= |s| && s[..|p|] == p
  }

  /** `t` occurs in `s` starting at position `i`. */
  predicate OccursAt(s: string, t: string, i: int) {
    0 <= i && i + |t| <= |s| && s[i..i + |t|] == t
  }

  /** Declarative meaning of `t in s`: some position holds an occurrence of `t`. */
  ghost predicate Occurs(s: string, t: string) {
    exists i :: OccursAt(s, t, i)
  }

  /** `t in s`, computed by scanning `s` from the left. */
  function Contains(s: string, t: string): bool
    decreases |s|
  {
    StartsWith(s, t) || (s != [] && Contains(s[1..], t))
  }

  lemma {:induction false} ContainsIsOccurs(s: string, t: string)
    ensures Contains(s, t) <==> Occurs(s, t)
    decreases |s|
  {
    if StartsWith(s, t) {
      assert OccursAt(s, t, 0);
    } else if s == [] {
      forall i ensures !OccursAt(s, t, i) {
      }
    } else {
      ContainsIsOccurs(s[1..], t);
      if Contains(s[1..], t) {
        var i :| OccursAt(s[1..], t, i);
        assert s[i + 1..i + 1 + |t|] == s[1..][i..i + |t|];
        assert OccursAt(s, t, i + 1);
      }
      forall i | OccursAt(s, t, i) ensures OccursAt(s[1..], t, i - 1) {
        assert s[1..][i - 1..i - 1 + |t|] == s[i..i + |t|];
      }
    }
  }

  /**
   * `s.split(c)`: the pieces of `s` between occurrences of `c`; there is
   * always at least one piece, and more than one exactly when `c` occurs.
   */
  function Split(s: string, c: char): (parts: seq<string>)
    ensures |parts| >= 1
    ensures c in s <==> |parts| >= 2
    decreases |s|
  {
    if s == [] then [""]
    else if s[0] == c then [""] + Split(s[1..], c)
    else
      var rest := Split(s[1..], c);
      assert c in s[1..] <==> c in s;
      [[s[0]] + rest[0]] + rest[1..]
  }

  lemma {:induction false} SplitWithoutSeparator(s: string, c: char)
    requires c !in s
    ensures Split(s, c) == [s]
    decreases |s|
  {
    if s != [] {
      SplitWithoutSeparator(s[1..], c);
      assert [s[0]] + s[1..] == s;
    }
  }

  /** Splitting `a + c + b`, where `a` has no `c`, yields `a` followed by the pieces of `b`. */
  lemma {:induction false} SplitAfterFirst(a: string, b: string, c: char)
    requires c !in a
    ensures Split(a + [c] + b, c) == [a] + Split(b, c)
    decreases |a|
  {
    if a == [] {
      assert a + [c] + b == [c] + b;
      assert ([c] + b)[1..] == b;
    } else {
      SplitAfterFirst(a[1..], b, c);
      assert (a + [c] + b)[1..] == a[1..] + [c] + b;
      assert [a[0]] + a[1..] == a;
    }
  }

  /**
   * The two pieces of `a + c + b` when neither `a` nor `b` holds `c`: this is
   * what makes a key built as `a + "-" + b` decompose back into `a` and `b`.
   */
  lemma SplitPair(a: string, b: string, c: char)
    requires c !in a && c !in b
    ensures Split(a + [c] + b, c) == [a, b]
  {
    SplitAfterFirst(a, b, c);
    SplitWithoutSeparator(b, c);
  }

  /** First piece of `s.split(c)`: the longest prefix of `s` without `c`. */
  lemma {:induction false} SplitHead(s: string, c: char)
    ensures c !in Split(s, c)[0]
    ensures StartsWith(s, Split(s, c)[0])
    ensures c in s ==> |Split(s, c)[0]| < |s| && s[|Split(s, c)[0]|] == c &&
                       Split(s, c)[1..] == Split(s[|Split(s, c)[0]| + 1..], c)
    decreases |s|
  {
    if s != [] && s[0] != c {
      SplitHead(s[1..], c);
      var h := Split(s[1..], c)[0];
      assert Split(s, c)[0] == [s[0]] + h;
      if c in s {
        assert c in s[1..];
        assert s[|h| + 2..] == s[1..][|h| + 1..];
      }
    } else if s != [] {
      assert Split(s, c)[0] == "";
      assert s[1..] == s[0 + 1..];
    }
  }

  /** `os.path.basename(p)` on POSIX: the text after the last '/'. */
  function Basename(p: string): (name: string)
    decreases |p|
  {
    if p == [] || p[|p| - 1] == '/' then ""
    else Basename(p[..|p| - 1]) + [p[|p| - 1]]
  }

  /** The basename is a '/'-free suffix of the path, preceded by '/' unless it is the whole path. */
  lemma {:induction false} BasenameShape(p: string)
    ensures '/' !in Basename(p)
    ensures |Basename(p)| <= |p| && p[|p| - |Basename(p)|..] == Basename(p)
    ensures |Basename(p)| < |p| ==> p[|p| - |Basename(p)| - 1] == '/'
    decreases |p|
  {
    if p != [] && p[|p| - 1] != '/' {
      var q := p[..|p| - 1];
      BasenameShape(q);
      assert p[|p| - |Basename(p)|..] == q[|q| - |Basename(q)|..] + [p[|p| - 1]];
    }
  }

  /** `os.path.join(a, b)` on POSIX for two components. */
  function Join(a: string, b: string): string {
    if |b| > 0 && b[0] == '/' then b
    else if a == "" || a[|a| - 1] == '/' then a + b
    else a + "/" + b
  }

  /** A '/'-free name appended after a path ending in '/' (or after nothing) is its own basename. */
  lemma {:induction false} BasenameAfterSlash(a: string, b: string)
    requires '/' !in b
    requires a == "" || a[|a| - 1] == '/'
    ensures Basename(a + b) == b
    decreases |b|
  {
    if b == [] {
      assert a + b == a;
    } else {
      var b' := b[..|b| - 1];
      BasenameAfterSlash(a, b');
      assert (a + b)[..|a + b| - 1] == a + b';
      assert b' + [b[|b| - 1]] == b;
    }
  }

  /** Joining a directory with a basename and taking the basename again gives that name back. */
  lemma BasenameOfJoin(dir: string, p: string)
    ensures Basename(Join(dir, Basename(p))) == Basename(p)
  {
    var name := Basename(p);
    BasenameShape(p);
    assert |name| > 0 ==> name[0] in name;
    if dir == "" || dir[|dir| - 1] == '/' {
      BasenameAfterSlash(dir, name);
    } else {
      BasenameAfterSlash(dir + "/", name);
      assert dir + "/" + name == (dir + "/") + name;
    }
  }
}
