/** The string operations the storefront's handlers rely on: JavaScript's
    `trim`, `slice`, `split(sep)[0]`, and the account masking built on them. */
module Text {
  import opened Base

  /** The characters JavaScript's `String.prototype.trim` removes: the
      WhiteSpace and LineTerminator code points of ECMAScript. */
  predicate IsSpace(c: char)
  {
    || '\t' <= c <= '\r'           // tab, line feed, vertical tab, form feed, carriage return
    || c == ' ' || c == '\U{A0}' || c == '\U{1680}'
    || '\U{2000}' <= c <= '\U{200A}' // en quad .. hair space
    || c == '\U{2028}' || c == '\U{2029}' || c == '\U{202F}' || c == '\U{205F}'
    || c == '\U{3000}' || c == '\U{FEFF}'
  }

  predicate AllSpace(s: string)
  {
    forall i :: 0 <= i < |s| ==> IsSpace(s[i])
  }

  lemma AllSpaceConcat(x: string, y: string)
    requires AllSpace(x) && AllSpace(y)
    ensures AllSpace(x + y)
  {
    assert forall i :: |x| <= i < |x + y| ==> (x + y)[i] == y[i - |x|];
  }

  /** Drops the leading white space: the result is the suffix of `s` that
      starts at its first non-space character. */
  function TrimStart(s: string): (r: string)
    ensures |r| <= |s| && r == s[|s| - |r|..]
    ensures AllSpace(s[..|s| - |r|])
    ensures r != [] ==> !IsSpace(r[0])
  {
    if s != [] && IsSpace(s[0]) then TrimStart(s[1..]) else s
  }

  /** Drops the trailing white space: the result is the prefix of `s` that
      ends at its last non-space character. */
  function TrimEnd(s: string): (r: string)
    ensures |r| <= |s| && r == s[..|r|]
    ensures AllSpace(s[|r|..])
    ensures r != [] ==> !IsSpace(r[|r| - 1])
  {
    if s != [] && IsSpace(s[|s| - 1]) then
      var init := s[..|s| - 1];
      var r := TrimEnd(init);
      assert init[..|r|] == s[..|r|];
      assert s[|r|..] == init[|r|..] + [s[|s| - 1]];
      AllSpaceConcat(init[|r|..], [s[|s| - 1]]);
      r
    else s
  }

  /** `r` is the piece of `s` from index `a`, with only white space before
      and after it. */
  predicate Middle(s: string, a: int, r: string)
  {
    0 <= a && a + |r| <= |s| && r == s[a..a + |r|] && AllSpace(s[..a]) && AllSpace(s[a + |r|..])
  }

  /** `s.trim()`: the piece of `s` left after its leading and trailing white
      space, with no white space at either of its ends; it is empty (the
      string is blank, `!s.trim()`) exactly when all of `s` is white space. */
  function Trim(s: string): (r: string)
    ensures r == [] <==> AllSpace(s)
    ensures Middle(s, |s| - |TrimStart(s)|, r)
    ensures r != [] ==> !IsSpace(r[0]) && !IsSpace(r[|r| - 1])
  {
    var t := TrimStart(s);
    var r := TrimEnd(t);
    TrimPieces(s, t, r);
    r
  }

  /** A white-space prefix of `s` and a white-space suffix of the rest leave
      the middle piece; it is empty only when all of `s` is white space. */
  lemma TrimPieces(s: string, t: string, r: string)
    requires |t| <= |s| && t == s[|s| - |t|..] && AllSpace(s[..|s| - |t|])
    requires t != [] ==> !IsSpace(t[0])
    requires |r| <= |t| && r == t[..|r|] && AllSpace(t[|r|..])
    ensures r == [] <==> AllSpace(s)
    ensures Middle(s, |s| - |t|, r)
    ensures r != [] ==> !IsSpace(r[0])
  {
    var a := |s| - |t|;
    assert s[a..a + |r|] == t[..|r|];
    assert s[a + |r|..] == t[|r|..];
    if r == [] {
      assert t[|r|..] == t && s == s[..a] + t;
      AllSpaceConcat(s[..a], t);
    } else {
      assert r[0] == t[0] == s[a];
    }
  }

  /** JavaScript's `Array.prototype.slice`/`String.prototype.slice` index
      normalisation: a negative index counts from the end, and the result is
      clamped to `0..len`. */
  function SliceIndex(k: int, len: nat): (r: nat)
    ensures r <= len
    ensures 0 <= k <= len ==> r == k
    ensures k > len ==> r == len
    ensures -(len as int) <= k < 0 ==> r == len + k
    ensures k < -(len as int) ==> r == 0
  {
    if k < 0 then Max(len + k, 0) else Min(k, len)
  }

  /** `r` occurs in `s` starting at index `k`. */
  predicate PieceAt(s: string, k: int, r: string)
  {
    0 <= k <= |s| - |r| && r == s[k..k + |r|]
  }

  /** `s.slice(from, to)`: a contiguous piece of `s`, which is `s[from..to]`
      when both ends lie inside `s` in that order. */
  function Slice(s: string, from: int, to: int): (r: string)
    ensures |r| <= |s|
    ensures exists k :: PieceAt(s, k, r)
    ensures 0 <= from <= to <= |s| ==> r == s[from..to]
    ensures 0 <= to <= from ==> r == []
  {
    var a := SliceIndex(from, |s|);
    var b := SliceIndex(to, |s|);
    if a <= b then
      var r := s[a..b];
      assert PieceAt(s, a, r);
      r
    else
      assert PieceAt(s, 0, []);
      []
  }

  /** `s.slice(from)`: a suffix of `s`; a negative `from` counts from the
      end. */
  function SliceFrom(s: string, from: int): (r: string)
    ensures |r| <= |s| && r == s[|s| - |r|..]
    ensures 0 <= from <= |s| ==> |r| == |s| - from
    ensures -(|s| as int) <= from < 0 ==> |r| == -from
    ensures from < -(|s| as int) ==> r == s
    ensures from > |s| ==> r == []
  {
    s[SliceIndex(from, |s|)..]
  }

  /** The account masking of the withdrawal handler:
      `${iban.slice(0, 4)}****${iban.slice(-4)}`. For an account of at least
      four characters it keeps the first four and the last four; a shorter
      one appears in full on both sides of the stars. */
  function MaskAccount(iban: string): (r: string)
    ensures |iban| >= 4 ==> |r| == 12 && r[..4] == iban[..4] && r[4..8] == "****" && r[8..] == iban[|iban| - 4..]
    ensures |iban| < 4 ==> r == iban + "****" + iban
  {
    Slice(iban, 0, 4) + "****" + SliceFrom(iban, -4)
  }

  /** A corollary of `MaskAccount`'s contract, stated by characters rather
      than positions: every character the mask shows is a star or one of
      the first four or last four characters of the account. */
  lemma MaskHidesMiddle(iban: string)
    requires |iban| >= 8
    ensures |MaskAccount(iban)| == 12
    ensures forall c :: c in MaskAccount(iban) ==> c == '*' || c in iban[..4] || c in iban[|iban| - 4..]
  {
    var r := MaskAccount(iban);
    assert r == iban[..4] + "****" + iban[|iban| - 4..];
  }

  /** `s.split(sep)[0]`: the part of `s` before the first occurrence of
      `sep` (all of `s` when `sep` does not occur). */
  function BeforeFirst(s: string, sep: string): (r: string)
    requires sep != []
    ensures |r| <= |s| && r == s[..|r|]
    decreases |s|
  {
    if |s| < |sep| then s
    else if s[..|sep|] == sep then []
    else [s[0]] + BeforeFirst(s[1..], sep)
  }

  /** When the second character of `sep` differs from its first and occurs
      nowhere in `p`, splitting `p + sep + q` at the first `sep` gives back
      `p`. */
  lemma {:induction false} BeforeFirstOfJoin(p: string, sep: string, q: string)
    requires |sep| >= 2 && sep[1] != sep[0] && sep[1] !in p
    ensures BeforeFirst(p + sep + q, sep) == p
    decreases |p|
  {
    var s := p + sep + q;
    if p == [] {
      assert s[..|sep|] == sep;
    } else {
      assert |s| >= |sep|;
      assert s[..|sep|] != sep by {
        assert s[..|sep|][1] == s[1];
        assert s[1] == if |p| >= 2 then p[1] else sep[0];
      }
      assert s[1..] == p[1..] + sep + q;
      BeforeFirstOfJoin(p[1..], sep, q);
    }
  }
}
