/** The `htu` normalisation of the verifier: `u.split('?')[0].split('#')[0]`,
    which keeps the part of a URL before its query string and fragment. */
module Uri {

  /** `s.split(c)[0]`: the part of `s` before the first occurrence of `c`
      (all of `s` when `c` does not occur). */
  function BeforeFirst(s: string, c: char): (r: string)
    ensures r <= s
    ensures c !in r
    ensures |r| < |s| ==> s[|r|] == c
    decreases |s|
  {
    if s == [] then []
    else if s[0] == c then []
    else [s[0]] + BeforeFirst(s[1..], c)
  }

  /** The verifier's URI normalisation (dpop_verify.py lines 55-56). */
  function Normalize(u: string): (r: string)
    ensures r <= u
    ensures '?' !in r && '#' !in r
    ensures |r| < |u| ==> IsDelimiter(u[|r|])
  {
    BeforeFirst(BeforeFirst(u, '?'), '#')
  }

  predicate IsDelimiter(c: char) {
    c == '?' || c == '#'
  }

  /** Index of the first `?` or `#` in `u`, or `|u|` when there is none. */
  function FirstDelimiter(u: string): (k: nat)
    ensures k <= |u|
    ensures forall i :: 0 <= i < k ==> !IsDelimiter(u[i])
    ensures k < |u| ==> IsDelimiter(u[k])
    decreases |u|
  {
    if u == [] then 0
    else if IsDelimiter(u[0]) then 0
    else 1 + FirstDelimiter(u[1..])
  }

  /** Splitting at `c` after appending `v` to `u` only looks into `v` when `u` has no `c`. */
  lemma {:induction false} BeforeFirstAppend(u: string, v: string, c: char)
    ensures c in u ==> BeforeFirst(u + v, c) == BeforeFirst(u, c)
    ensures c !in u ==> BeforeFirst(u + v, c) == u + BeforeFirst(v, c)
    decreases |u|
  {
    if u == [] {
      assert u + v == v;
    } else {
      assert (u + v)[0] == u[0];
      assert (u + v)[1..] == u[1..] + v;
      if u[0] != c {
        BeforeFirstAppend(u[1..], v, c);
        if c !in u {
          assert c !in u[1..];
          assert u == [u[0]] + u[1..];
        } else {
          assert c in u[1..];
        }
      }
    }
  }

  /** Normalisation is the prefix of `u` before its first `?` or `#`: the two
      successive splits cut at whichever delimiter comes first. */
  lemma NormalizeIsPrefixBeforeDelimiter(u: string)
    ensures Normalize(u) == u[..FirstDelimiter(u)]
  {
    var k := FirstDelimiter(u);
    var r := Normalize(u);
    assert |r| == k;
    assert r == u[..k];
  }

  /** The normal form holds neither a query nor a fragment delimiter. */
  lemma NormalizeHasNoDelimiter(u: string)
    ensures '?' !in Normalize(u) && '#' !in Normalize(u)
  {
    var q := BeforeFirst(u, '?');
    assert Normalize(u) <= q;
  }

  /** Normalising twice gives the same result as normalising once. */
  lemma NormalizeIdempotent(u: string)
    ensures Normalize(Normalize(u)) == Normalize(u)
  {
    var r := Normalize(u);
    NormalizeHasNoDelimiter(u);
    BeforeFirstAppend(r, [], '?');
    assert r + [] == r;
    BeforeFirstAppend(BeforeFirst(r, '?'), [], '#');
    assert BeforeFirst(r, '?') == r;
  }

  /** Appending a query string does not change the normal form, whatever `u` holds. */
  lemma NormalizeIgnoresQuery(u: string, query: string)
    ensures Normalize(u + "?" + query) == Normalize(u)
  {
    BeforeFirstAppend(u, "?" + query, '?');
    assert u + "?" + query == u + ("?" + query);
    if '?' !in u {
      assert BeforeFirst("?" + query, '?') == [];
      assert BeforeFirst(u + "?" + query, '?') == u;
      BeforeFirstAppend(u, [], '?');
      assert u + [] == u;
    }
  }

  /** Appending a fragment does not change the normal form, whatever `u` holds. */
  lemma NormalizeIgnoresFragment(u: string, fragment: string)
    ensures Normalize(u + "#" + fragment) == Normalize(u)
  {
    var v := "#" + fragment;
    assert u + "#" + fragment == u + v;
    BeforeFirstAppend(u, v, '?');
    if '?' !in u {
      BeforeFirstAppend(u, [], '?');
      assert u + [] == u;
      var w := BeforeFirst(v, '?');
      assert w[0] == '#' by {
        assert v[0] == '#';
      }
      BeforeFirstAppend(u, w, '#');
      if '#' !in u {
        assert w == [w[0]] + w[1..];
        assert BeforeFirst(w, '#') == [];
        assert BeforeFirst(u + w, '#') == u;
        BeforeFirstAppend(u, [], '#');
      }
    }
  }

  /** Two URLs with the same part before any query or fragment are bound to the
      same `htu`. */
  lemma SameResourceDiffersOnlyAfterDelimiter(base: string, suffix: string)
    requires '?' !in base && '#' !in base
    requires suffix != [] ==> IsDelimiter(suffix[0])
    ensures Normalize(base + suffix) == base
  {
    var u := base + suffix;
    NormalizeIsPrefixBeforeDelimiter(u);
    var k := FirstDelimiter(u);
    assert forall i :: 0 <= i < |base| ==> u[i] == base[i];
    assert |base| < |u| ==> IsDelimiter(u[|base|]);
    assert forall i :: 0 <= i < |base| ==> !IsDelimiter(u[i]);
    assert k == |base|;
    assert u[..k] == base;
  }
}
