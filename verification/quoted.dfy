/**
 * The regular expression `/(["'])(\\?.)*?\1/` and `String.prototype.match` without the
 * global flag: the first match a backtracking search finds, scanning start positions
 * from left to right. The pattern opens with a quote, lazily consumes characters (a
 * backslash together with the character after it, or any single character; `.` stops at
 * line terminators) and closes with the same quote as the one that opened it.
 */
module QuotedMatch {
  import opened Wrappers

  predicate IsQuote(c: char) {
    c == '"' || c == '\''
  }

  /** The characters `.` does not match (ECMA-262, LineTerminator). */
  predicate IsLineTerminator(c: char) {
    c == '\n' || c == '\r' || c == '\U{2028}' || c == '\U{2029}'
  }

  /** No line terminator among s[a..b]. */
  predicate NoLineBreak(s: string, a: int, b: int)
    requires 0 <= a && b <= |s|
  {
    forall m :: a <= m < b ==> !IsLineTerminator(s[m])
  }

  /**
   * The end of the match of `(\\?.)*?\1` starting at `j`, with `q` the opening quote:
   * the lazy loop first tries to close, then one more step, taking a backslash together
   * with the next character before taking a backslash alone. The match ends just after a
   * closing `q` and spans no line terminator.
   */
  function CloseFrom(s: string, q: char, j: nat): (r: Option<nat>)
    requires j <= |s|
    ensures r.Some? ==> j < r.value <= |s| && s[r.value - 1] == q && NoLineBreak(s, j, r.value - 1)
    decreases |s| - j
  {
    if j < |s| && s[j] == q then Some(j + 1)
    else
      var escaped :=
        if j + 1 < |s| && s[j] == '\\' && !IsLineTerminator(s[j + 1]) then CloseFrom(s, q, j + 2)
        else None;
      if escaped.Some? then escaped
      else if j < |s| && !IsLineTerminator(s[j]) then CloseFrom(s, q, j + 1)
      else None
  }

  /** A closing `q` exists at or after `j` on the same line. */
  predicate Closable(s: string, q: char, j: nat)
    requires j <= |s|
  {
    exists k :: j <= k < |s| && s[k] == q && NoLineBreak(s, j, k)
  }

  /** The backtracking search closes exactly when a closing quote exists on the same line:
      the escape alternative never prevents a match, it only changes where it ends. */
  lemma {:induction false} CloseFromIff(s: string, q: char, j: nat)
    requires j <= |s|
    ensures CloseFrom(s, q, j).Some? <==> Closable(s, q, j)
    decreases |s| - j
  {
    var r := CloseFrom(s, q, j);
    if r.Some? {
      assert j <= r.value - 1 < |s| && s[r.value - 1] == q && NoLineBreak(s, j, r.value - 1);
    }
    if Closable(s, q, j) {
      var k :| j <= k < |s| && s[k] == q && NoLineBreak(s, j, k);
      if s[j] != q {
        assert j < k && !IsLineTerminator(s[j]);
        assert NoLineBreak(s, j + 1, k);
        CloseFromIff(s, q, j + 1);
      }
    }
  }

  /** Without backslashes the match ends just after the first `q`. */
  lemma {:induction false} CloseFromPlain(s: string, q: char, j: nat, k: nat)
    requires j <= k < |s| && s[k] == q
    requires forall m :: j <= m < k ==> s[m] != q && s[m] != '\\' && !IsLineTerminator(s[m])
    ensures CloseFrom(s, q, j) == Some(k + 1)
    decreases k - j
  {
    if j < k {
      CloseFromPlain(s, q, j + 1, k);
    }
  }

  /** The end of a match starting at position `i`, if one starts there. */
  function MatchAt(s: string, i: nat): (r: Option<nat>)
    requires i <= |s|
    ensures r.Some? ==> i < |s| && IsQuote(s[i]) && i + 2 <= r.value <= |s| && s[r.value - 1] == s[i]
  {
    if i < |s| && IsQuote(s[i]) then CloseFrom(s, s[i], i + 1) else None
  }

  /** The leftmost match at or after position `i`, as its start and end. */
  function Search(s: string, i: nat): (r: Option<(nat, nat)>)
    requires i <= |s|
    ensures r.Some? ==> i <= r.value.0 < |s| && MatchAt(s, r.value.0) == Some(r.value.1)
    ensures r.Some? ==> forall m :: i <= m < r.value.0 ==> MatchAt(s, m).None?
    ensures r.None? ==> forall m :: i <= m <= |s| ==> MatchAt(s, m).None?
    decreases |s| - i
  {
    if i == |s| then None
    else
      match MatchAt(s, i)
      case Some(e) => Some((i, e))
      case None => Search(s, i + 1)
  }

  /** `s.match(/(["'])(\\?.)*?\1/)[0]`, or `None` where `match` returns null. The matched
      text opens and closes with the same quote and lies within `s`. */
  function FirstQuoted(s: string): (r: Option<string>)
    ensures r.Some? ==> |r.value| >= 2 && IsQuote(r.value[0]) && r.value[|r.value| - 1] == r.value[0]
    ensures r.Some? ==> exists i, e :: 0 <= i <= e <= |s| && s[i..e] == r.value
  {
    match Search(s, 0)
    case Some((i, e)) => Some(s[i..e])
    case None => None
  }

  /** There is no match, so `match` returns null, exactly when no quote in `s` has the
      same quote after it on its line. */
  lemma FirstQuotedNoneIff(s: string)
    ensures FirstQuoted(s).None? <==>
            forall i :: 0 <= i < |s| && IsQuote(s[i]) ==> !Closable(s, s[i], i + 1)
  {
    forall i | 0 <= i < |s| && IsQuote(s[i])
      ensures MatchAt(s, i).Some? <==> Closable(s, s[i], i + 1)
    {
      CloseFromIff(s, s[i], i + 1);
    }
  }

  /** The match starts at the leftmost quote that has the same quote after it on its line. */
  lemma MatchIsLeftmost(s: string)
    ensures Search(s, 0).Some? ==>
      var i := Search(s, 0).value.0;
      && Closable(s, s[i], i + 1)
      && forall m :: 0 <= m < i && IsQuote(s[m]) ==> !Closable(s, s[m], m + 1)
  {
    if Search(s, 0).Some? {
      var i := Search(s, 0).value.0;
      CloseFromIff(s, s[i], i + 1);
      forall m | 0 <= m < i && IsQuote(s[m])
        ensures !Closable(s, s[m], m + 1)
      {
        assert MatchAt(s, m).None?;
        CloseFromIff(s, s[m], m + 1);
      }
    }
  }

  /** The search steps over positions that hold no quote. */
  lemma {:induction false} SearchSkips(s: string, i: nat, p: nat)
    requires i <= p < |s|
    requires forall m :: i <= m < p ==> !IsQuote(s[m])
    requires MatchAt(s, p).Some?
    ensures Search(s, i) == Some((p, MatchAt(s, p).value))
    decreases p - i
  {
    if i < p {
      SearchSkips(s, i + 1, p);
    }
  }

  /** A message that quotes a plain value after quote-free text yields that quoted value. */
  lemma QuotedValue(prefix: string, v: string, suffix: string)
    requires forall m :: 0 <= m < |prefix| ==> !IsQuote(prefix[m])
    requires forall m :: 0 <= m < |v| ==> v[m] != '"' && v[m] != '\\' && !IsLineTerminator(v[m])
    ensures FirstQuoted(prefix + "\"" + v + "\"" + suffix) == Some("\"" + v + "\"")
  {
    var s := prefix + "\"" + v + "\"" + suffix;
    var p := |prefix|;
    var k := p + 1 + |v|;
    assert s[p] == '"' && s[k] == '"';
    assert forall m :: p + 1 <= m < k ==> s[m] == v[m - p - 1];
    CloseFromPlain(s, '"', p + 1, k);
    assert forall m :: 0 <= m < p ==> s[m] == prefix[m];
    SearchSkips(s, 0, p);
    assert s[p..k + 1] == "\"" + v + "\"";
  }
}
