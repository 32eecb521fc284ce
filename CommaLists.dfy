/**
 * Comma-joined lists of strings: the StringBuffer loops that build a signature string
 * ("ret,p1,p2") and that join all signatures of one name (JsonRpcExecutor, methodSignature).
 * Split is the reading direction, used to show the joined text determines its parts.
 */
module CommaLists {

  /** parts[0] + "," + parts[1] + ... ; the empty list joins to "". */
  function Join(parts: seq<string>): string {
    if |parts| == 0 then ""
    else if |parts| == 1 then parts[0]
    else Join(parts[..|parts| - 1]) + "," + parts[|parts| - 1]
  }

  lemma JoinSnoc(parts: seq<string>, x: string)
    requires |parts| >= 1
    ensures Join(parts + [x]) == Join(parts) + "," + x
  {
    assert (parts + [x])[..|parts|] == parts;
  }

  predicate CommaFree(parts: seq<string>) {
    forall i :: 0 <= i < |parts| ==> ',' !in parts[i]
  }

  function LastComma(s: string): (k: int)
    ensures -1 <= k < |s|
    ensures k >= 0 ==> s[k] == ','
    ensures forall j :: k < j < |s| ==> s[j] != ','
  {
    if |s| == 0 then -1
    else if s[|s| - 1] == ',' then |s| - 1
    else LastComma(s[..|s| - 1])
  }

  /** Cut s at every comma. */
  function Split(s: string): (r: seq<string>)
    ensures |r| >= 1
    decreases |s|
  {
    var k := LastComma(s);
    if k < 0 then [s] else Split(s[..k]) + [s[k + 1..]]
  }

  lemma {:induction false} LastCommaOfJoin(a: string, b: string)
    requires ',' !in b
    ensures LastComma(a + "," + b) == |a|
    decreases |b|
  {
    var s := a + "," + b;
    if |b| > 0 {
      var b' := b[..|b| - 1];
      assert s[|s| - 1] == b[|b| - 1];
      assert s[..|s| - 1] == a + "," + b';
      LastCommaOfJoin(a, b');
    } else {
      assert s[|s| - 1] == ',';
    }
  }

  /** Splitting the joined text gives the parts back, as long as no part contains a comma. */
  lemma {:induction false} SplitJoin(parts: seq<string>)
    requires |parts| >= 1 && CommaFree(parts)
    ensures Split(Join(parts)) == parts
  {
    if |parts| > 1 {
      var init, last := parts[..|parts| - 1], parts[|parts| - 1];
      var a := Join(init);
      assert Join(parts) == a + "," + last;
      LastCommaOfJoin(a, last);
      assert (a + "," + last)[..|a|] == a;
      assert (a + "," + last)[|a| + 1..] == last;
      SplitJoin(init);
      assert init + [last] == parts;
    }
  }

  /** The StringBuffer loop: parts[0], then "," and each further part. */
  method JoinWithCommas(parts: seq<string>) returns (s: string)
    requires |parts| >= 1
    ensures s == Join(parts)
    ensures CommaFree(parts) ==> Split(s) == parts
  {
    s := parts[0];
    var i := 1;
    while i < |parts|
      invariant 1 <= i <= |parts|
      invariant s == Join(parts[..i])
    {
      assert parts[..i + 1][..i] == parts[..i];
      s := s + "," + parts[i];
      i := i + 1;
    }
    assert parts[..i] == parts;
    if CommaFree(parts) {
      SplitJoin(parts);
    }
  }
}
