/** Byte strings and where one occurs in another. A byte is modelled as the
    character with its value; nothing here looks past equality of bytes. */
module ByteStrings {

  type Bytes = seq<char>

  /** `f` stands in `s` at position `i`. */
  ghost predicate At(s: Bytes, i: int, f: Bytes) {
    0 <= i && i + |f| <= |s| && s[i..i + |f|] == f
  }

  /** Python's `f in s`. */
  ghost predicate Occurs(f: Bytes, s: Bytes) {
    exists i :: At(s, i, f)
  }

  /** `s.endswith(p)` */
  predicate EndsWith(s: Bytes, p: Bytes) {
    |p| <= |s| && s[|s| - |p|..] == p
  }

  /** The whole stream behind a sequence of chunks. */
  function Flatten(chunks: seq<Bytes>): Bytes {
    if chunks == [] then [] else Flatten(chunks[..|chunks| - 1]) + chunks[|chunks| - 1]
  }

  /** `f in s`, computed. */
  method Contains(s: Bytes, f: Bytes) returns (found: bool)
    ensures found <==> Occurs(f, s)
  {
    var i := 0;
    while i + |f| <= |s|
      invariant 0 <= i
      invariant forall j :: 0 <= j < i ==> !At(s, j, f)
    {
      if s[i..i + |f|] == f {
        assert At(s, i, f);
        return true;
      }
      i := i + 1;
    }
    return false;
  }

  /** An occurrence in `a + b` lies in `a`, in `b`, or across the seam. */
  lemma AtConcat(a: Bytes, b: Bytes, i: int, f: Bytes)
    ensures i + |f| <= |a| ==> (At(a + b, i, f) <==> At(a, i, f))
    ensures i >= |a| ==> (At(a + b, i, f) <==> At(b, i - |a|, f))
    ensures 0 <= i < |a| < i + |f| ==>
              (At(a + b, i, f) <==> AcrossSeam(a, b, |a| - i, f))
  {
    var s := a + b;
    if 0 <= i && i + |f| <= |a| {
      assert s[i..i + |f|] == a[i..i + |f|];
    } else if i >= |a| && i + |f| <= |s| {
      assert s[i..i + |f|] == b[i - |a|..i - |a| + |f|];
    } else if 0 <= i < |a| < i + |f| <= |s| {
      var k := |a| - i;
      assert s[i..i + |f|] == a[i..] + b[..|f| - k];
      assert f == f[..k] + f[k..];
      assert a[i..] == s[i..i + |f|][..k] && b[..|f| - k] == s[i..i + |f|][k..];
    }
  }

  /** `f` stands with its first k bytes at the end of `a` and the rest at the start of `b`. */
  predicate AcrossSeam(a: Bytes, b: Bytes, k: int, f: Bytes) {
    0 < k < |f| && EndsWith(a, f[..k]) && |f| - k <= |b| && b[..|f| - k] == f[k..]
  }

  lemma AbsentInParts(a: Bytes, b: Bytes, f: Bytes)
    ensures !Occurs(f, a + b) ==> !Occurs(f, a) && !Occurs(f, b)
  {
    if Occurs(f, a) {
      var i :| At(a, i, f);
      AtConcat(a, b, i, f);
      assert At(a + b, i, f);
    }
    if Occurs(f, b) {
      var i :| At(b, i, f);
      AtConcat(a, b, |a| + i, f);
      assert At(a + b, |a| + i, f);
    }
  }

  /** What `a + b` ends with, by the length of the ending. */
  lemma EndsWithConcat(a: Bytes, b: Bytes, p: Bytes)
    ensures EndsWith(a + b, p) <==>
            if |p| <= |b| then EndsWith(b, p)
            else EndsWith(a, p[..|p| - |b|]) && b == p[|p| - |b|..]
  {
    var s := a + b;
    if |p| <= |b| {
      assert s[|s| - |p|..] == b[|b| - |p|..];
    } else if |p| <= |s| {
      var j := |p| - |b|;
      assert s[|s| - |p|..] == a[|a| - j..] + b;
      assert p == p[..j] + p[j..];
      assert s[|s| - |p|..][..j] == a[|a| - j..] && s[|s| - |p|..][j..] == b;
    }
  }

  lemma SliceConcat(x: Bytes, rest: Bytes, k: nat)
    requires k <= |x|
    ensures (x + rest)[..k] == x[..k] && (x + rest)[k..] == x[k..] + rest
  {
  }
}
