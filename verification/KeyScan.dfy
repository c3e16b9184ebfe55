/** eval/crazeeval/keys.py: the scan of a stored file for a loaded key. A gzip member is
    the sequence of chunks its decompressor yields before it ends or fails. */
module KeyScan {
  import opened Common
  import opened ByteStrings

  ghost predicate HoldsKey(forms: seq<Bytes>, s: Bytes) {
    exists i :: 0 <= i < |forms| && Occurs(forms[i], s)
  }

  /** `KeyRing.contains_key` */
  method ContainsKey(forms: seq<Bytes>, data: Bytes) returns (found: bool)
    ensures found <==> HoldsKey(forms, data)
  {
    for i := 0 to |forms|
      invariant forall j :: 0 <= j < i ==> !Occurs(forms[j], data)
    {
      var here := Contains(data, forms[i]);
      if here {
        return true;
      }
    }
    return false;
  }

  /** The longest form's length, 1 when there is none. */
  function LongestForm(forms: seq<Bytes>): (n: nat)
    ensures forall i :: 0 <= i < |forms| ==> |forms[i]| <= n
  {
    if forms == [] then 1
    else if |forms| == 1 then |forms[0]|
    else
      var rest := forms[..|forms| - 1];
      var last := forms[|forms| - 1];
      assert forall i :: 0 <= i < |rest| ==> forms[i] == rest[i];
      Max(LongestForm(rest), |last|)
  }

  /** `buf[-keep:] if keep else b""` */
  function LastBytes(s: Bytes, keep: nat): Bytes {
    if keep <= |s| then s[|s| - keep..] else s
  }

  /** `data_has_key`: the raw bytes, then the decompressed chunks, each with the previous
      one's last (longest form - 1) bytes. */
  method DataHasKey(forms: seq<Bytes>, isGzip: bool, data: Bytes, chunks: seq<Bytes>) returns (hit: bool)
    requires forall i :: 0 <= i < |forms| ==> forms[i] != []
    ensures hit <==> HoldsKey(forms, data) || (isGzip && HoldsKey(forms, Flatten(chunks)))
  {
    hit := ContainsKey(forms, data);
    if hit || !isGzip {
      return;
    }
    var keep := LongestForm(forms) - 1;
    if forms != [] { assert |forms[0]| <= LongestForm(forms); }
    var tail: Bytes := [];
    var i := 0;
    while i < |chunks|
      invariant 0 <= i <= |chunks|
      invariant tail == LastBytes(Flatten(chunks[..i]), keep)
      invariant !hit && !HoldsKey(forms, Flatten(chunks[..i]))
    {
      ghost var before := Flatten(chunks[..i]);
      assert chunks[..i + 1][..i] == chunks[..i];
      assert Flatten(chunks[..i + 1]) == before + chunks[i];
      var buf := tail + chunks[i];
      TailSuffices(forms, before, chunks[i], keep);
      hit := ContainsKey(forms, buf);
      if hit {
        FoundEarly(forms, chunks, i + 1);
        return;
      }
      tail := LastBytes(buf, keep);
      i := i + 1;
    }
    assert chunks[..i] == chunks;
  }

  /** With nothing found so far, the kept tail and the next chunk hold a key exactly when
      the stream up to that chunk does; and the tail of the two is the stream's. */
  lemma TailSuffices(forms: seq<Bytes>, before: Bytes, chunk: Bytes, keep: nat)
    requires forall i :: 0 <= i < |forms| ==> 0 < |forms[i]| <= keep + 1
    requires !HoldsKey(forms, before)
    ensures HoldsKey(forms, LastBytes(before, keep) + chunk) <==> HoldsKey(forms, before + chunk)
    ensures LastBytes(LastBytes(before, keep) + chunk, keep) == LastBytes(before + chunk, keep)
  {
    var tail := LastBytes(before, keep);
    var d := |before| - |tail|;
    assert before + chunk == before[..d] + (tail + chunk);
    forall i | 0 <= i < |forms|
      ensures Occurs(forms[i], tail + chunk) <==> Occurs(forms[i], before + chunk)
    {
      var f := forms[i];
      AbsentInParts(before[..d], tail + chunk, f);
      if Occurs(f, before + chunk) {
        var p :| At(before + chunk, p, f);
        AtConcat(before, chunk, p, f);
        assert !At(before, p, f);
        AtConcat(before[..d], tail + chunk, p, f);
        assert At(tail + chunk, p - d, f);
      }
    }
  }

  lemma FoundEarly(forms: seq<Bytes>, chunks: seq<Bytes>, i: nat)
    requires i <= |chunks| && HoldsKey(forms, Flatten(chunks[..i]))
    ensures HoldsKey(forms, Flatten(chunks))
    decreases |chunks|
  {
    if i < |chunks| {
      var shorter := chunks[..|chunks| - 1];
      assert shorter[..i] == chunks[..i];
      FoundEarly(forms, shorter, i);
      var k :| 0 <= k < |forms| && Occurs(forms[k], Flatten(shorter));
      AbsentInParts(Flatten(shorter), chunks[|chunks| - 1], forms[k]);
    } else {
      assert chunks[..i] == chunks;
    }
  }
}
