/** The retention and dedup key of one GPU instance: parent uuid, slash, numeric id. */
module MigKeys {
  import opened Numerals

  function GiKey(parent: string, gi: string): string {
    parent + "/" + gi
  }

  lemma DecimalHasNoSlash(n: int)
    ensures '/' !in Decimal(n)
  {
    NaturalDecimal(if n < 0 then -n else n);
  }

  /** Two instances share a key only when they are the same: the id holds no slash, so the last slash separates. */
  lemma GiKeyInjective(p: string, g: string, q: string, h: string)
    requires '/' !in g && '/' !in h && GiKey(p, g) == GiKey(q, h)
    ensures p == q && g == h
  {
    var s := GiKey(p, g);
    assert s[|p|] == '/' && s[|q|] == '/';
    assert forall i :: |p| < i < |s| ==> s[i] == g[i - |p| - 1];
    assert forall i :: |q| < i < |s| ==> s[i] == h[i - |q| - 1];
    assert |p| == |q|;
    assert p == s[..|p|] && q == s[..|q|] && g == s[|p| + 1..] && h == s[|q| + 1..];
  }
}
