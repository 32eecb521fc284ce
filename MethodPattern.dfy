/**
 * METHOD_PATTERN of JsonRpcExecutor, ([_a-zA-Z][_a-zA-Z0-9]*)\.([_a-zA-Z][_a-zA-Z0-9]*),
 * applied with Matcher.find(): the leftmost substring that matches, with both groups greedy.
 */
module MethodPattern {
  import opened Wrappers

  predicate IsIdentStart(c: char) {
    c == '_' || ('a' <= c <= 'z') || ('A' <= c <= 'Z')
  }

  predicate IsIdentPart(c: char) {
    IsIdentStart(c) || ('0' <= c <= '9')
  }

  /** The language of [_a-zA-Z][_a-zA-Z0-9]*. */
  predicate IsIdent(s: string) {
    |s| > 0 && IsIdentStart(s[0]) && forall i :: 1 <= i < |s| ==> IsIdentPart(s[i])
  }

  /** The whole of t matches the pattern. */
  predicate MatchesPattern(t: string) {
    exists k :: 0 <= k < |t| && t[k] == '.' && IsIdent(t[..k]) && IsIdent(t[k + 1..])
  }

  /** Some match of the pattern begins at position i of s. */
  predicate MatchStartsAt(s: string, i: nat)
    requires i <= |s|
  {
    exists j :: i <= j <= |s| && MatchesPattern(s[i..j])
  }

  /** (h, o) are the groups of the match found at position i: its text is h.o and group 2 cannot grow. */
  predicate GroupsAt(s: string, i: nat, g: (string, string))
  {
    var (h, o) := g;
    var end := i + |h| + 1 + |o|;
    && end <= |s|
    && s[i..end] == h + "." + o
    && IsIdent(h) && IsIdent(o)
    && (end == |s| || !IsIdentPart(s[end]))
  }

  /** End of the longest run of identifier characters starting at i. */
  function IdentEnd(s: string, i: nat): (k: nat)
    requires i <= |s|
    ensures i <= k <= |s|
    ensures forall j :: i <= j < k ==> IsIdentPart(s[j])
    ensures k == |s| || !IsIdentPart(s[k])
    decreases |s| - i
  {
    if i < |s| && IsIdentPart(s[i]) then IdentEnd(s, i + 1) else i
  }

  /** The attempt of the regex engine at position i (greedy groups; '.' is not an identifier character). */
  function MatchAt(s: string, i: nat): Option<(string, string)>
    requires i <= |s|
  {
    if i < |s| && IsIdentStart(s[i]) then
      var dot := IdentEnd(s, i);
      if dot + 1 < |s| && s[dot] == '.' && IsIdentStart(s[dot + 1]) then
        Some((s[i..dot], s[dot + 1..IdentEnd(s, dot + 1)]))
      else None
    else None
  }

  function FindFrom(s: string, i: nat): Option<(string, string)>
    requires i <= |s|
    decreases |s| - i
  {
    if i == |s| then None
    else match MatchAt(s, i)
      case Some(g) => Some(g)
      case None => FindFrom(s, i + 1)
  }

  /** mat.find() followed by mat.group(1), mat.group(2). */
  function FindMethodName(s: string): Option<(string, string)> {
    FindFrom(s, 0)
  }

  lemma {:induction false} IdentEndIs(s: string, i: nat, k: nat)
    requires i <= k <= |s|
    requires forall j :: i <= j < k ==> IsIdentPart(s[j])
    requires k == |s| || !IsIdentPart(s[k])
    ensures IdentEnd(s, i) == k
    decreases k - i
  {
    if i < k {
      IdentEndIs(s, i + 1, k);
    }
  }

  /** The pieces of h + "." + o. */
  lemma DottedParts(h: string, o: string)
    ensures (h + "." + o)[..|h|] == h
    ensures (h + "." + o)[|h|] == '.'
    ensures (h + "." + o)[|h| + 1..] == o
  {
  }

  lemma MatchAtSound(s: string, i: nat)
    requires i <= |s| && MatchAt(s, i).Some?
    ensures GroupsAt(s, i, MatchAt(s, i).value)
    ensures MatchStartsAt(s, i)
  {
    var dot := IdentEnd(s, i);
    var end := IdentEnd(s, dot + 1);
    var (h, o) := MatchAt(s, i).value;
    assert h == s[i..dot] && o == s[dot + 1..end];
    assert s[i..end] == h + "." + o;
    var t := s[i..end];
    DottedParts(h, o);
    assert |h| == dot - i;
    assert MatchesPattern(t) by {
      assert t[..|h|] == h && t[|h|] == '.' && t[|h| + 1..] == o;
    }
  }

  /** The engine's attempt at i succeeds when an identifier, a dot and an identifier start begin there. */
  lemma MatchAtFromDot(s: string, i: nat, k: nat)
    requires i + k + 1 < |s|
    requires IsIdentStart(s[i]) && s[i + k] == '.' && IsIdentStart(s[i + k + 1])
    requires forall x :: i <= x < i + k ==> IsIdentPart(s[x])
    ensures MatchAt(s, i).Some?
  {
    IdentEndIs(s, i, i + k);
    var dot := IdentEnd(s, i);
    assert dot == i + k;
  }

  lemma MatchAtComplete(s: string, i: nat)
    requires i <= |s| && MatchStartsAt(s, i)
    ensures MatchAt(s, i).Some?
  {
    var j :| i <= j <= |s| && MatchesPattern(s[i..j]);
    var t := s[i..j];
    var k :| 0 <= k < |t| && t[k] == '.' && IsIdent(t[..k]) && IsIdent(t[k + 1..]);
    var h, o := t[..k], t[k + 1..];
    assert s[i] == h[0];
    assert s[i + k] == t[k];
    assert s[i + k + 1] == o[0];
    forall x | i <= x < i + k ensures IsIdentPart(s[x]) {
      assert s[x] == h[x - i];
    }
    MatchAtFromDot(s, i, k);
  }

  lemma {:induction false} FindFromSpec(s: string, i: nat)
    requires i <= |s|
    ensures FindFrom(s, i).Some? <==> exists p :: i <= p <= |s| && MatchStartsAt(s, p)
    ensures FindFrom(s, i).Some? ==>
      exists p :: (i <= p <= |s| && MatchStartsAt(s, p)
                   && (forall q :: i <= q < p ==> !MatchStartsAt(s, q)) && GroupsAt(s, p, FindFrom(s, i).value))
    decreases |s| - i
  {
    if i == |s| {
      if MatchStartsAt(s, i) {
        MatchAtComplete(s, i);
      }
    } else if MatchAt(s, i).Some? {
      MatchAtSound(s, i);
    } else {
      FindFromSpec(s, i + 1);
      if MatchStartsAt(s, i) {
        MatchAtComplete(s, i);
      }
      if FindFrom(s, i + 1).Some? {
        var p :| i + 1 <= p <= |s| && MatchStartsAt(s, p)
          && (forall q :: i + 1 <= q < p ==> !MatchStartsAt(s, q)) && GroupsAt(s, p, FindFrom(s, i + 1).value);
        assert forall q :: i <= q < p ==> !MatchStartsAt(s, q);
      }
    }
  }

  /**
   * Resolution succeeds iff some substring matches the pattern, and then yields the groups of the
   * leftmost match.
   */
  lemma FindMethodNameIsLeftmostMatch(s: string)
    ensures FindMethodName(s).Some? <==> exists p :: 0 <= p <= |s| && MatchStartsAt(s, p)
    ensures FindMethodName(s).Some? ==>
      exists p :: (0 <= p <= |s| && MatchStartsAt(s, p)
                   && (forall q :: 0 <= q < p ==> !MatchStartsAt(s, q)) && GroupsAt(s, p, FindMethodName(s).value))
  {
    FindFromSpec(s, 0);
  }

  /** "handle.op" of two identifiers resolves to exactly (handle, op). */
  lemma QualifiedNameResolves(handle: string, op: string)
    requires IsIdent(handle) && IsIdent(op)
    ensures FindMethodName(handle + "." + op) == Some((handle, op))
  {
    var s := handle + "." + op;
    var n := |handle|;
    forall x | 0 <= x < n ensures IsIdentPart(s[x]) {
      assert s[x] == handle[x];
    }
    IdentEndIs(s, 0, n);
    forall x | n + 1 <= x < |s| ensures IsIdentPart(s[x]) {
      assert s[x] == op[x - n - 1];
    }
    IdentEndIs(s, n + 1, |s|);
    assert s[0] == handle[0] && s[n] == '.' && s[n + 1] == op[0];
    assert IsIdentStart(s[0]) && IsIdentStart(s[n + 1]);
    assert s[0..n] == handle && s[n + 1..|s|] == op;
    assert MatchAt(s, 0) == Some((handle, op));
  }

  /** With more than one dot, the first two identifiers are taken and the rest is ignored. */
  lemma ThreePartName()
    ensures FindMethodName("a.b.c") == Some(("a", "b"))
  {
    var s := "a.b.c";
    IdentEndIs(s, 0, 1);
    IdentEndIs(s, 2, 3);
    assert s[0..1] == "a" && s[2..3] == "b";
  }

  /** A name without a dot never resolves. */
  lemma NoDotNoMatch(s: string)
    requires '.' !in s
    ensures FindMethodName(s).None?
  {
    FindMethodNameIsLeftmostMatch(s);
  }
}
