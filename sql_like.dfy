/**
 * SQLite's built-in LIKE operator, which the Room DAOs' search queries use
 * as `column LIKE '%' || :query || '%'`: `%` matches any run of characters,
 * `_` matches exactly one, and every other character matches itself up to
 * ASCII case (SQLite folds only ASCII letters by default). No ESCAPE clause
 * is used, so a `%` or `_` typed by the user acts as a wildcard.
 */
module SqlLike {
  import opened Text

  predicate Like(s: string, p: string)
    decreases |s| + |p|
  {
    if p == [] then s == []
    else if p[0] == '%' then Like(s, p[1..]) || (s != [] && Like(s[1..], p))
    else s != [] && (p[0] == '_' || LowerChar(s[0]) == LowerChar(p[0])) && Like(s[1..], p[1..])
  }

  /** The search condition on one column: `column LIKE '%' || q || '%'`. */
  predicate LikeContains(column: string, q: string)
  {
    Like(column, "%" + q + "%")
  }

  predicate NoWildcards(q: string)
  {
    '%' !in q && '_' !in q
  }

  lemma {:induction false} PercentMatchesAll(t: string)
    ensures Like(t, "%")
    decreases |t|
  {
    if t != [] {
      PercentMatchesAll(t[1..]);
    }
  }

  /** A leading `%` lets the rest of the pattern start at any position. */
  lemma {:induction false} LeadingPercent(s: string, r: string)
    ensures Like(s, "%" + r) <==> exists i :: 0 <= i <= |s| && Like(s[i..], r)
    decreases |s|
  {
    var p := "%" + r;
    assert p[0] == '%' && p[1..] == r;
    assert s[0..] == s;
    if s != [] {
      LeadingPercent(s[1..], r);
      if Like(s[1..], p) {
        var i :| 0 <= i <= |s[1..]| && Like(s[1..][i..], r);
        assert s[1..][i..] == s[i + 1..];
      }
      if i :| 0 <= i <= |s| && Like(s[i..], r) {
        if i > 0 {
          assert s[1..][i - 1..] == s[i..];
        }
      }
    }
  }

  /** A wildcard-free literal followed by `%` matches exactly the strings it starts, up to case. */
  lemma {:induction false} LiteralThenPercent(t: string, q: string)
    requires NoWildcards(q)
    ensures Like(t, q + "%") <==> |q| <= |t| && Lower(t[..|q|]) == Lower(q)
    decreases |q|
  {
    if q == [] {
      assert q + "%" == "%";
      PercentMatchesAll(t);
      assert t[..0] == [];
    } else {
      var p := q + "%";
      assert p[0] == q[0] && p[1..] == q[1..] + "%";
      LiteralThenPercent(if t == [] then t else t[1..], q[1..]);
      if t != [] && |q| <= |t| {
        assert t[..|q|][1..] == t[1..][..|q| - 1];
        LowerEqualCons(t[..|q|], q);
      }
    }
  }

  /** Two strings of one length agree up to case exactly when their heads and their tails do. */
  lemma LowerEqualCons(a: string, b: string)
    requires |a| == |b| >= 1
    ensures Lower(a) == Lower(b) <==> LowerChar(a[0]) == LowerChar(b[0]) && Lower(a[1..]) == Lower(b[1..])
  {
    if LowerChar(a[0]) == LowerChar(b[0]) && Lower(a[1..]) == Lower(b[1..]) {
      forall k | 1 <= k < |a|
        ensures Lower(a)[k] == Lower(b)[k]
      {
        assert Lower(a[1..])[k - 1] == Lower(b[1..])[k - 1];
      }
    }
    if Lower(a) == Lower(b) {
      forall k | 0 <= k < |a| - 1
        ensures Lower(a[1..])[k] == Lower(b[1..])[k]
      {
        assert Lower(a)[k + 1] == Lower(b)[k + 1];
      }
    }
  }

  lemma LikeAtImpliesContains(column: string, q: string, i: int)
    requires NoWildcards(q) && 0 <= i <= |column| && Like(column[i..], q + "%")
    ensures Contains(Lower(column), Lower(q))
  {
    LiteralThenPercent(column[i..], q);
    var lc := Lower(column);
    assert lc[i..][..|q|] == Lower(column[i..][..|q|]);
    assert Lower(q) <= lc[i..];
  }

  lemma ContainsImpliesLikeAt(column: string, q: string) returns (i: int)
    requires NoWildcards(q) && Contains(Lower(column), Lower(q))
    ensures 0 <= i <= |column| && Like(column[i..], q + "%")
  {
    var lc, lq := Lower(column), Lower(q);
    i :| 0 <= i <= |lc| - |lq| && lq <= lc[i..];
    LiteralThenPercent(column[i..], q);
    assert lc[i..][..|q|] == Lower(column[i..][..|q|]);
  }

  /**
   * For a query without `%` or `_`, the DAO search condition is exactly
   * "the column contains the query", ignoring ASCII case.
   */
  lemma LikeContainsIsSubstring(column: string, q: string)
    requires NoWildcards(q)
    ensures LikeContains(column, q) <==> Contains(Lower(column), Lower(q))
  {
    assert "%" + q + "%" == "%" + (q + "%");
    LeadingPercent(column, q + "%");
    if LikeContains(column, q) {
      var i :| 0 <= i <= |column| && Like(column[i..], q + "%");
      LikeAtImpliesContains(column, q, i);
    }
    if Contains(Lower(column), Lower(q)) {
      var i := ContainsImpliesLikeAt(column, q);
    }
  }
}
