/**
 * The string semantics behind the search handler: `column.ilike('%q%')`.
 * SQL `LIKE` treats `%` as any run of characters and `_` as any one
 * character; `ILIKE` compares both sides after lower-casing them (ASCII only,
 * as the database's `lower` does). An integer column is compared through its
 * decimal text.
 */
module Text {

  function LowerChar(c: char): char
  {
    if 'A' <= c <= 'Z' then (c as int + 32) as char else c
  }

  /** ASCII lower-casing, character by character. */
  function Lower(s: string): (r: string)
    ensures |r| == |s|
    ensures forall i :: 0 <= i < |s| ==> r[i] == LowerChar(s[i])
    decreases |s|
  {
    if |s| == 0 then [] else [LowerChar(s[0])] + Lower(s[1..])
  }

  lemma LowerAppend(a: string, b: string)
    ensures Lower(a + b) == Lower(a) + Lower(b)
  {
    assert forall i :: 0 <= i < |a + b| ==> Lower(a + b)[i] == (Lower(a) + Lower(b))[i];
  }

  function Digit(d: nat): (c: char)
    requires d < 10
  {
    ('0' as int + d) as char
  }

  predicate AllDigits(s: string)
  {
    forall i :: 0 <= i < |s| ==> '0' <= s[i] <= '9'
  }

  /** The decimal numeral of `n`, most significant digit first. */
  function DecimalText(n: nat): (r: string)
    ensures |r| >= 1 && AllDigits(r)
    ensures n > 0 ==> r[0] != '0'
    decreases n
  {
    if n < 10 then [Digit(n)] else DecimalText(n / 10) + [Digit(n % 10)]
  }

  /** The value of a numeral; the inverse of DecimalText. */
  function DecimalValue(s: string): nat
    requires AllDigits(s)
    decreases |s|
  {
    if |s| == 0 then 0
    else 10 * DecimalValue(s[..|s| - 1]) + (s[|s| - 1] as int - '0' as int)
  }

  lemma {:induction false} DecimalRoundTrip(n: nat)
    ensures DecimalValue(DecimalText(n)) == n
    decreases n
  {
    if n >= 10 {
      var t := DecimalText(n);
      assert t[..|t| - 1] == DecimalText(n / 10);
      DecimalRoundTrip(n / 10);
    }
  }

  /** How an integer id reads when the database compares it as text. */
  function IntText(i: int): (r: string)
    ensures |r| >= 1
    ensures i >= 0 ==> AllDigits(r) && DecimalValue(r) == i
    ensures i < 0 ==> r[0] == '-' && AllDigits(r[1..]) && DecimalValue(r[1..]) == -i
    ensures i != 0 ==> r[0] != '0'
    ensures i < 0 ==> |r| >= 2 && r[1] != '0'
  {
    if i < 0 then
      DecimalRoundTrip(-i);
      assert ("-" + DecimalText(-i))[1..] == DecimalText(-i);
      "-" + DecimalText(-i)
    else
      DecimalRoundTrip(i);
      DecimalText(i)
  }

  /** SQL `LIKE`: does `text` match `pattern`, with `%` and `_` as wildcards? */
  function LikeMatch(pattern: string, text: string): (r: bool)
    ensures NoWildcards(pattern) ==> (r <==> pattern == text)
    decreases |pattern| + |text|
  {
    if |pattern| == 0 then |text| == 0
    else if pattern[0] == '%' then
      LikeMatch(pattern[1..], text) || (|text| > 0 && LikeMatch(pattern, text[1..]))
    else
      |text| > 0 && (pattern[0] == '_' || pattern[0] == text[0]) && LikeMatch(pattern[1..], text[1..])
  }

  /** SQL `ILIKE`: `LIKE` after lower-casing both sides. */
  function ILike(text: string, pattern: string): (r: bool)
    ensures NoWildcards(pattern) ==> (r <==> Lower(pattern) == Lower(text))
  {
    LikeMatch(Lower(pattern), Lower(text))
  }

  /** The pattern `%q%` the search handler builds from its query. */
  function Pattern(q: string): string
  {
    "%" + q + "%"
  }

  predicate NoWildcards(q: string)
  {
    forall i :: 0 <= i < |q| ==> q[i] != '%' && q[i] != '_'
  }

  predicate IsPrefix(q: string, t: string)
  {
    |q| <= |t| && t[..|q|] == q
  }

  /** Plain substring containment: `q` occurs somewhere in `t`. */
  predicate Contains(t: string, q: string)
  {
    exists k :: 0 <= k <= |t| && IsPrefix(q, t[k..])
  }

  lemma {:induction false} PercentMatchesAll(t: string)
    ensures LikeMatch("%", t)
    decreases |t|
  {
    assert "%"[1..] == [];
    if |t| > 0 {
      PercentMatchesAll(t[1..]);
    }
  }

  /** For a wildcard-free `q`, the pattern `q%` matches exactly the texts starting with `q`. */
  lemma {:induction false} PrefixPattern(q: string, t: string)
    requires NoWildcards(q)
    ensures LikeMatch(q + "%", t) <==> IsPrefix(q, t)
    decreases |q|
  {
    if |q| == 0 {
      assert q + "%" == "%";
      PercentMatchesAll(t);
    } else {
      var p := q + "%";
      assert p[0] == q[0] && p[1..] == q[1..] + "%";
      assert q[0] != '%' && q[0] != '_';
      if |t| > 0 {
        PrefixPattern(q[1..], t[1..]);
        if IsPrefix(q, t) {
          assert t[0] == t[..|q|][0] == q[0];
          assert t[1..][..|q| - 1] == t[..|q|][1..];
        }
        if t[0] == q[0] && IsPrefix(q[1..], t[1..]) {
          assert t[..|q|] == [t[0]] + t[1..][..|q| - 1];
        }
      }
    }
  }

  /** A leading `%` lets the rest of the pattern match any suffix. */
  lemma {:induction false} LeadingPercent(r: string, t: string)
    ensures LikeMatch("%" + r, t) <==> exists k :: 0 <= k <= |t| && LikeMatch(r, t[k..])
    decreases |t|
  {
    var p := "%" + r;
    assert p[0] == '%' && p[1..] == r;
    assert t[0..] == t;
    if |t| > 0 {
      LeadingPercent(r, t[1..]);
      if LikeMatch(p, t) && !LikeMatch(r, t) {
        var k :| 0 <= k <= |t| - 1 && LikeMatch(r, t[1..][k..]);
        assert t[1..][k..] == t[k + 1..];
      }
      if exists k :: 0 <= k <= |t| && LikeMatch(r, t[k..]) {
        var k :| 0 <= k <= |t| && LikeMatch(r, t[k..]);
        if k > 0 {
          assert t[k..] == t[1..][k - 1..];
        }
      }
    }
  }

  lemma LowerKeepsNoWildcards(q: string)
    requires NoWildcards(q)
    ensures NoWildcards(Lower(q))
  {
  }

  /**
   * When the query holds no wildcard character, `text ILIKE '%q%'` is
   * case-insensitive substring search.
   */
  lemma ILikeIsSubstring(q: string, text: string)
    requires NoWildcards(q)
    ensures ILike(text, Pattern(q)) <==> Contains(Lower(text), Lower(q))
  {
    var lq, lt := Lower(q), Lower(text);
    LowerAppend("%" + q, "%");
    LowerAppend("%", q);
    assert Lower("%") == "%";
    assert Lower(Pattern(q)) == "%" + (lq + "%");
    LowerKeepsNoWildcards(q);
    LeadingPercent(lq + "%", lt);
    if ILike(text, Pattern(q)) {
      var k :| 0 <= k <= |lt| && LikeMatch(lq + "%", lt[k..]);
      PrefixPattern(lq, lt[k..]);
    }
    if Contains(lt, lq) {
      var k :| 0 <= k <= |lt| && IsPrefix(lq, lt[k..]);
      PrefixPattern(lq, lt[k..]);
    }
  }

  /** The wildcard a query may carry: `_` alone matches every non-empty text. */
  lemma UnderscoreMatchesAnyNonEmpty(text: string)
    requires |text| > 0
    ensures ILike(text, Pattern("_"))
  {
    var lt := Lower(text);
    assert Lower(Pattern("_")) == "%_%";
    assert ("%" + "_%")[1..] == "_%";
    assert "%_%" == "%" + "_%";
    assert ("_%")[1..] == "%";
    PercentMatchesAll(lt[1..]);
    assert LikeMatch("_%", lt);
    LeadingPercent("_%", lt);
    assert lt[0..] == lt;
  }
}
