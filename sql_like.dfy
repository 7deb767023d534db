/**
 * SQLite's `LIKE` operator as Room runs it (no ESCAPE clause, the default
 * case-insensitive mode): `%` matches any run of characters, `_` any one
 * character, and letters compare with ASCII case folding only.
 */
module SqlLike {

  /** SQLite folds only the 26 ASCII capitals for `LIKE`. */
  function FoldAscii(c: char): (f: char)
    ensures 'A' <= c <= 'Z' ==> f as int == c as int + 32
    ensures !('A' <= c <= 'Z') ==> f == c
  {
    if 'A' <= c <= 'Z' then (c as int + 32) as char else c
  }

  /** `s LIKE p`. */
  predicate Like(s: string, p: string)
    decreases |s| + |p|
  {
    if p == [] then s == []
    else if p[0] == '%' then Like(s, p[1..]) || (s != [] && Like(s[1..], p))
    else s != [] && (p[0] == '_' || FoldAscii(p[0]) == FoldAscii(s[0])) && Like(s[1..], p[1..])
  }

  /** A string in which neither `LIKE` wildcard occurs. */
  predicate NoWildcards(q: string) {
    forall i :: 0 <= i < |q| ==> q[i] != '%' && q[i] != '_'
  }

  /** `s` starts with `q`, comparing under ASCII case folding. */
  predicate StartsWithFolded(s: string, q: string) {
    q == [] || (s != [] && FoldAscii(s[0]) == FoldAscii(q[0]) && StartsWithFolded(s[1..], q[1..]))
  }

  /** `q` occurs somewhere in `s`, comparing under ASCII case folding. */
  predicate ContainsFolded(s: string, q: string) {
    StartsWithFolded(s, q) || (s != [] && ContainsFolded(s[1..], q))
  }

  /** A lone `%` matches every string. */
  lemma {:induction false} PercentMatchesAll(s: string)
    ensures Like(s, "%")
  {
    if s != [] {
      PercentMatchesAll(s[1..]);
    }
  }

  /** `s LIKE q || '%'` is a case-folded prefix test when `q` has no wildcard. */
  lemma {:induction false} LikePrefix(s: string, q: string)
    requires NoWildcards(q)
    ensures Like(s, q + "%") <==> StartsWithFolded(s, q)
  {
    if q == [] {
      assert q + "%" == "%";
      PercentMatchesAll(s);
    } else {
      assert (q + "%")[1..] == q[1..] + "%";
      if s != [] {
        LikePrefix(s[1..], q[1..]);
      }
    }
  }

  /**
   * `s LIKE '%' || q || '%'` is case-folded substring containment when `q`
   * has no wildcard.
   */
  lemma {:induction false} LikeContains(s: string, q: string)
    requires NoWildcards(q)
    ensures Like(s, "%" + q + "%") <==> ContainsFolded(s, q)
  {
    var p := "%" + q + "%";
    assert p[1..] == q + "%";
    LikePrefix(s, q);
    if s != [] {
      LikeContains(s[1..], q);
    }
  }

  /** With the empty query, `'%' || q || '%'` matches every string. */
  lemma EmptyQueryMatchesAll(s: string)
    ensures Like(s, "%" + "" + "%")
  {
    assert "%" + "" + "%" == "%%";
    assert "%%"[1..] == "%";
    PercentMatchesAll(s);
  }

  /**
   * The query is not escaped, so `_` in it is a wildcard: searching for
   * "a_c" finds "abc", which does not contain "a_c".
   */
  lemma UnderscoreInQueryIsWildcard()
    ensures Like("abc", "%" + "a_c" + "%") && !ContainsFolded("abc", "a_c")
  {
    assert "%" + "a_c" + "%" == "%a_c%";
    assert "%a_c%"[1..] == "a_c%" && "a_c%"[1..] == "_c%" && "_c%"[1..] == "c%" && "c%"[1..] == "%";
    assert "abc"[1..] == "bc" && "bc"[1..] == "c" && "c"[1..] == "";
    PercentMatchesAll("");
    assert Like("", "%");
    assert Like("c", "c%");
    assert Like("bc", "_c%");
    assert Like("abc", "a_c%");
    assert !StartsWithFolded("bc", "a_c") && !StartsWithFolded("c", "a_c");
  }
}
